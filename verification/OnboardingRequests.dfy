/**
 What one onboarding or acceptance request does. Over every schedule: an identity is registered only as the owner of
 its key requested it, with the region of the invitation spent. And for a request that no one interrupts: its answer
 and everything it leaves behind.
 */
module OnboardingRequests {
  import opened Values
  import opened Protocol
  import opened ApiServer
  import opened Onboarding
  import M = MemoryStore

  // ---------------------------------------------------------------------------------------------
  // Registered as requested
  // ---------------------------------------------------------------------------------------------

  /** An acceptance request and the step in which it came in. */
  datatype Request = Request(i: nat, id: string, hash: string, identity: Identity, proof: Signature<Identity>)

  /** Request `r` came in for call `c`, well formed and with a proof of ownership over exactly this identity. */
  predicate Received(schedule: seq<Step>, c: CallId, r: Request) {
    && r.i < |schedule| && schedule[r.i] == StartAccept(c, r.id, r.hash, r.identity, r.proof)
    && ValidIdentity(r.identity) && SignatureValid(r.identity.publicKey.value, r.identity, r.proof)
  }

  /** The identity requested, with the region of the invitation under `key`, which bears the token requested. */
  predicate AsRequested(s: State, key: Key, registered: Identity, r: Request) {
    && key == Key(r.identity.tenant, r.id) && key in s.invites.objects && s.invites.objects[key].value.tokenHash == r.hash
    && registered == r.identity.(region := s.invites.objects[key].value.region)
  }

  /** Request `r` explains where the call stands. */
  predicate Explains(s: State, call: Call, r: Request) {
    match call.pc
    case InviteRead(key, hash, identity, _) => key == Key(r.identity.tenant, r.id) && hash == r.hash && identity == r.identity
    case InviteWrite(key, hash, identity, _, _) => key == Key(r.identity.tenant, r.id) && hash == r.hash && identity == r.identity
    case Registering(key, identity) => call.used == Some(key) && AsRequested(s, key, identity, r)
    case _ =>
      call.registered.Some? && call.used.Some? && call.registered.value in s.identities.objects
      && AsRequested(s, call.used.value, s.identities.objects[call.registered.value].value, r)
  }

  /** The call deals with an acceptance, or has registered an identity. */
  predicate Accepting(call: Call) {
    call.pc.InviteRead? || call.pc.InviteWrite? || call.pc.Registering? || call.registered.Some?
  }

  ghost predicate Explained(schedule: seq<Step>, c: CallId)
    requires c in Exec(schedule).calls
  {
    Accepting(Exec(schedule).calls[c]) ==>
      exists r :: Received(schedule, c, r) && Explains(Exec(schedule), Exec(schedule).calls[c], r)
  }

  /** Registered identities never change and invitations keep token and region. */
  predicate Keeps(s: State, t: State) {
    && (forall k <- s.identities.objects :: k in t.identities.objects && t.identities.objects[k].value == s.identities.objects[k].value)
    && (forall k <- s.invites.objects ::
          && k in t.invites.objects
          && t.invites.objects[k].value.tokenHash == s.invites.objects[k].value.tokenHash
          && t.invites.objects[k].value.region == s.invites.objects[k].value.region)
  }

  lemma AdvanceKeeps(s: State, c: CallId, fault: Fault)
    requires c in s.calls && CallOk(s, s.calls[c])
    ensures Keeps(s, AdvanceCall(s, c, fault))
  {
    hide WriteClaim, WriteInvite, Register, AfterClaimRead, AfterInviteRead;
    if s.calls[c].pc.InviteWrite? { WriteInviteKeeps(s, c, fault); }
    if s.calls[c].pc.Registering? { RegisterKeeps(s, c, fault); }
  }

  lemma WriteInviteKeeps(s: State, c: CallId, fault: Fault)
    requires c in s.calls && CallOk(s, s.calls[c]) && s.calls[c].pc.InviteWrite?
    ensures Keeps(s, WriteInvite(s, c, fault))
  {
    hide M.Included;
  }

  lemma RegisterKeeps(s: State, c: CallId, fault: Fault)
    requires c in s.calls && s.calls[c].pc.Registering?
    ensures Keeps(s, Register(s, c, fault))
  {
  }

  lemma MakeKeeps(s: State, c: CallId, id: string, hash: string, fault: Fault)
    requires c in s.calls && s.calls[c].pc.ClaimWon? && FreshId(s.invites, id)
    ensures Keeps(s, Invite(s, c, id, hash, fault))
  {
  }

  lemma StepKeeps(s: State, step: Step)
    requires CallsOk(s)
    ensures Keeps(s, Next(s, step))
  {
    hide AdvanceCall, Invite, CallOk;
    if step.Advance? && step.c in s.calls {
      assert CallOk(s, s.calls[step.c]);
      AdvanceKeeps(s, step.c, step.fault);
    }
    if step.MakeInvitation? && step.c in s.calls && s.calls[step.c].pc.ClaimWon? && FreshId(s.invites, step.id) {
      MakeKeeps(s, step.c, step.id, step.hash, step.fault);
    }
  }

  lemma ExplanationSurvives(s: State, t: State, call: Call, r: Request)
    requires Accepting(call) && Explains(s, call, r) && Keeps(s, t)
    ensures Explains(t, call, r)
  {
  }

  /** An acceptance moves on with the request it started from. */
  lemma StepExplains(s: State, step: Step, c: CallId, r: Request)
    requires CallsOk(s) && c in s.calls && Accepting(s.calls[c]) && Explains(s, s.calls[c], r)
    ensures c in Next(s, step).calls
    ensures Accepting(Next(s, step).calls[c]) ==> Explains(Next(s, step), Next(s, step).calls[c], r)
  {
    hide ClaimVerdict, ValidIdentity, M.Included;
    var t := Next(s, step);
    StepKeeps(s, step);
    assert CallOk(s, s.calls[c]);
    if t.calls[c] == s.calls[c] {
      ExplanationSurvives(s, t, s.calls[c], r);
    } else {
      MovedExplains(s, step, c, r);
    }
  }

  lemma MovedExplains(s: State, step: Step, c: CallId, r: Request)
    requires c in s.calls && CallOk(s, s.calls[c]) && Accepting(s.calls[c]) && Explains(s, s.calls[c], r)
    requires c in Next(s, step).calls && Next(s, step).calls[c] != s.calls[c]
    ensures Accepting(Next(s, step).calls[c]) ==> Explains(Next(s, step), Next(s, step).calls[c], r)
  {
    hide CallOk, WriteClaim, WriteInvite, Register, AfterClaimRead, AfterInviteRead, Explains, Accepting;
    AcceptingPc(s, s.calls[c]);
    assert step.Advance? && step.c == c;
    var call := s.calls[c];
    if call.pc.InviteRead? { ReadExplains(s, c, r); }
    else if call.pc.InviteWrite? { WriteExplains(s, c, step.fault, r); }
    else if call.pc.Registering? { RegisterExplains(s, c, step.fault, r); }
  }

  lemma AcceptingPc(s: State, call: Call)
    requires CallOk(s, call) && Accepting(call)
    ensures call.pc.InviteRead? || call.pc.InviteWrite? || call.pc.Registering? || call.registered.Some?
    ensures call.registered.Some? ==> call.pc.Done?
  {
  }

  lemma ReadExplains(s: State, c: CallId, r: Request)
    requires c in s.calls && s.calls[c].pc.InviteRead? && CallOk(s, s.calls[c]) && Explains(s, s.calls[c], r)
    ensures var t := Goto(s, c, AfterInviteRead(s, s.calls[c].pc)); Accepting(t.calls[c]) ==> Explains(t, t.calls[c], r)
  {
    hide InviteVerdict;
  }

  lemma WriteExplains(s: State, c: CallId, fault: Fault, r: Request)
    requires c in s.calls && s.calls[c].pc.InviteWrite? && CallOk(s, s.calls[c]) && Explains(s, s.calls[c], r)
    ensures var t := WriteInvite(s, c, fault); Accepting(t.calls[c]) ==> Explains(t, t.calls[c], r)
  {
    hide M.Included;
  }

  lemma RegisterExplains(s: State, c: CallId, fault: Fault, r: Request)
    requires c in s.calls && s.calls[c].pc.Registering? && CallOk(s, s.calls[c]) && Explains(s, s.calls[c], r)
    ensures var t := Register(s, c, fault); Accepting(t.calls[c]) ==> Explains(t, t.calls[c], r)
  {
    hide M.Included;
  }

  lemma WriteClaimAccepts(s: State, c: CallId, fault: Fault)
    requires c in s.calls && s.calls[c].pc.ClaimWrite? && Accepting(WriteClaim(s, c, fault).calls[c])
    ensures Accepting(s.calls[c])
  {
  }

  lemma ReadClaimAccepts(s: State, c: CallId)
    requires c in s.calls && s.calls[c].pc.ClaimRead? && Accepting(Goto(s, c, AfterClaimRead(s, s.calls[c].pc)).calls[c])
    ensures Accepting(s.calls[c])
  {
    hide ClaimVerdict;
  }

  lemma MakeAccepts(s: State, c: CallId, id: string, hash: string, fault: Fault)
    requires c in s.calls && s.calls[c].pc.ClaimWon? && FreshId(s.invites, id) && Accepting(Invite(s, c, id, hash, fault).calls[c])
    ensures Accepting(s.calls[c])
  {
  }

  /** Acceptances only begin with a request. */
  lemma StepAccepts(s: State, step: Step, c: CallId)
    requires c in Next(s, step).calls && Accepting(Next(s, step).calls[c])
    ensures c in s.calls ==> Accepting(s.calls[c])
    ensures c !in s.calls ==>
              && step.StartAccept? && step.c == c && ValidIdentity(step.identity)
              && SignatureValid(step.identity.publicKey.value, step.identity, step.proof)
              && Explains(Next(s, step), Next(s, step).calls[c], Request(0, step.id, step.hash, step.identity, step.proof))
  {
    hide ValidIdentity, WriteClaim, WriteInvite, Register, AfterClaimRead, AfterInviteRead, Invite;
    if c in s.calls {
      if step.Advance? && step.c == c {
        if s.calls[c].pc.ClaimRead? { ReadClaimAccepts(s, c); }
        if s.calls[c].pc.ClaimWrite? { WriteClaimAccepts(s, c, step.fault); }
      }
      if step.MakeInvitation? && step.c == c && s.calls[c].pc.ClaimWon? && FreshId(s.invites, step.id) {
        MakeAccepts(s, c, step.id, step.hash, step.fault);
      }
    }
  }

  lemma {:induction false} AllExplained(schedule: seq<Step>, c: CallId)
    requires c in Exec(schedule).calls
    ensures Explained(schedule, c)
  {
    hide Next, Explains, Accepting, Inv;
    if Accepting(Exec(schedule).calls[c]) {
      var k := |schedule| - 1;
      var before, step := schedule[..k], schedule[k];
      var s := Exec(before);
      Invariant(before);
      CallsOkOf(s);
      StepAccepts(s, step, c);
      if c in s.calls {
        AllExplained(before, c);
        var r :| Received(before, c, r) && Explains(s, s.calls[c], r);
        StepExplains(s, step, c, r);
        assert Received(schedule, c, r);
      } else {
        var r := Request(k, step.id, step.hash, step.identity, step.proof);
        IndexDoesNotMatter(Exec(schedule), Exec(schedule).calls[c], r);
        assert Received(schedule, c, r);
      }
    }
  }

  lemma CallsOkOf(s: State)
    requires Inv(s)
    ensures CallsOk(s) && RegistrarsOk(s)
  {
  }

  lemma IndexDoesNotMatter(s: State, call: Call, r: Request)
    requires Explains(s, call, r.(i := 0))
    ensures Explains(s, call, r)
  {
  }

  /**
   In every run, with crashes and lost replies anywhere, every registered identity is the one that the holder of its key
   asked for in an earlier request, field by field, but for the region, which is that of the invitation spent on it; and
   the request carried that invitation's id and token.
   */
  lemma RegisteredAsRequested(schedule: seq<Step>, k: Key) returns (r: Request)
    requires k in Exec(schedule).identities.objects
    ensures var s := Exec(schedule);
            && k in s.registrar && s.registrar[k] in s.calls && s.calls[s.registrar[k]].used.Some?
            && Received(schedule, s.registrar[k], r)
            && var invite := s.calls[s.registrar[k]].used.value;
               && invite == Key(r.identity.tenant, r.id) && invite in s.invites.objects && s.invites.objects[invite].value.tokenHash == r.hash
               && s.identities.objects[k].value == r.identity.(region := s.invites.objects[invite].value.region)
  {
    hide Inv, Next;
    var s := Exec(schedule);
    Invariant(schedule);
    CallsOkOf(s);
    assert RegistrarOk(s, k);
    var c := s.registrar[k];
    AllExplained(schedule, c);
    assert Accepting(s.calls[c]);
    r :| Received(schedule, c, r) && Explains(s, s.calls[c], r);
    assert CallOk(s, s.calls[c]);
  }

  /** So every registered identity is named after its trust domain and cluster and has a digest, a key and QUIC endpoints only. */
  lemma RegisteredAreWellFormed(schedule: seq<Step>, k: Key)
    requires k in Exec(schedule).identities.objects
    ensures var v := Exec(schedule).identities.objects[k].value;
            && v.tenant != "" && v.trustDomain != "" && v.clusterID != "" && v.publicKey.Some?
            && v.spiffeID == "spiffe://" + v.trustDomain + "/cluster/" + v.clusterID
            && |v.bundleDigest| == 71 && v.bundleDigest[..7] == "sha256:"
            && (forall i | 7 <= i < 71 :: v.bundleDigest[i] in "0123456789abcdef")
            && forall e <- v.gatewayEndpoints :: |e| >= 7 && e[..7] == "quic://"
  {
    hide Exec, Received;
    var r := RegisteredAsRequested(schedule, k);
    ReceivedIsValid(schedule, k, r);
    var v := Exec(schedule).identities.objects[k].value;
    assert v.bundleDigest == r.identity.bundleDigest && v.gatewayEndpoints == r.identity.gatewayEndpoints;
    HexDigits(v.bundleDigest);
  }

  lemma ReceivedIsValid(schedule: seq<Step>, k: Key, r: Request)
    requires exists c :: Received(schedule, c, r)
    ensures ValidIdentity(r.identity)
  {
  }

  lemma HexDigits(s: string)
    requires Digest(s)
    ensures forall i | 7 <= i < 71 :: s[i] in "0123456789abcdef"
  {
    forall i | 7 <= i < 71 ensures s[i] in "0123456789abcdef" {
      HexDigitListed(s[i]);
    }
  }

  lemma HexDigitListed(c: char)
    requires HexDigit(c)
    ensures c in "0123456789abcdef"
  {
    var hex := "0123456789abcdef";
    var i := if c <= '9' then c as int - '0' as int else c as int - 'a' as int + 10;
    assert hex[i] == c;
  }

  // ---------------------------------------------------------------------------------------------
  // Refused writes and lost replies
  // ---------------------------------------------------------------------------------------------

  /** Step `step` lets a write of call `c` fail: refused, or committed with its reply lost. A claim that changed meanwhile is not written at all. */
  predicate Faulty(s: State, step: Step, c: CallId) {
    && c in s.calls
    && ((step.Advance? && step.c == c && step.fault != NoFault
         && (s.calls[c].pc.InviteWrite? || s.calls[c].pc.Registering?
             || (s.calls[c].pc.ClaimWrite? && (step.fault == WriteRefused || Matches(s.claims, s.calls[c].pc.key, s.calls[c].pc.claimSnapshot)))))
        || (step.MakeInvitation? && step.c == c && step.fault != NoFault && s.calls[c].pc.ClaimWon? && FreshId(s.invites, step.id)))
  }

  lemma FaultStep(s: State, step: Step, c: CallId)
    requires Faulty(s, step, c)
    ensures c in Next(s, step).calls && Next(s, step).calls[c].pc == Done(WriteFailed)
    ensures step.fault == WriteRefused ==>
              Next(s, step).claims == s.claims && Next(s, step).invites == s.invites && Next(s, step).identities == s.identities
  {
  }

  lemma AnswersStay(s: State, step: Step, c: CallId)
    requires c in s.calls && s.calls[c].pc.Done?
    ensures c in Next(s, step).calls && Next(s, step).calls[c].pc == s.calls[c].pc
  {
    hide ValidIdentity, DnsSafe;
  }

  /** Either way the call answers that the write failed, for good, and what is refused is not written. */
  lemma {:induction false} FaultsAreAnswered(schedule: seq<Step>, n: nat, c: CallId)
    requires n < |schedule| && Faulty(Exec(schedule[..n]), schedule[n], c)
    ensures c in Exec(schedule).calls && Exec(schedule).calls[c].pc == Done(WriteFailed)
    ensures var s, t := Exec(schedule[..n]), Exec(schedule[..n + 1]);
            schedule[n].fault == WriteRefused ==> t.claims == s.claims && t.invites == s.invites && t.identities == s.identities
    decreases |schedule|
  {
    hide Next, Faulty;
    var k := |schedule| - 1;
    assert schedule[..n + 1][..n] == schedule[..n];
    FaultStep(Exec(schedule[..n]), schedule[n], c);
    if n == k {
      assert schedule[..n + 1] == schedule;
    } else {
      assert schedule[..k][..n] == schedule[..n] && schedule[..k][..n + 1] == schedule[..n + 1];
      FaultsAreAnswered(schedule[..k], n, c);
      AnswersStay(Exec(schedule[..k]), schedule[k], c);
    }
  }

  // ---------------------------------------------------------------------------------------------
  // A request alone
  // ---------------------------------------------------------------------------------------------

  /** `n` API calls of call `c` with nothing in between and no failures. */
  function Alone(s: State, c: CallId, n: nat): State {
    if n == 0 then s else Next(Alone(s, c, n - 1), Advance(c, NoFault))
  }

  lemma AloneTwice(s: State, c: CallId)
    ensures Alone(s, c, 1) == Next(s, Advance(c, NoFault))
    ensures Alone(s, c, 2) == Next(Alone(s, c, 1), Advance(c, NoFault))
    ensures Alone(s, c, 3) == Next(Alone(s, c, 2), Advance(c, NoFault))
  {
    hide Next;
    assert Alone(s, c, 0) == s;
  }

  function Pending(s: State, c: CallId, pc: Pc): State {
    s.(calls := s.calls[c := Call(pc, None, false, None, None, None)])
  }

  /** The Secret of a claim marked used at `now`, and nothing else changed. */
  function UsedClaim(db: Db<Key, ClaimSecret>, key: Key, now: Time): Db<Key, ClaimSecret>
    requires key in db.objects
  {
    var v := db.objects[key].value;
    Rewrite(db, key, ClaimSecret(v.tokenHash, v.clusterID, v.region, v.expires, Some(now)))
  }

  function UsedInvite(db: Db<Key, InviteSecret>, key: Key, now: Time): Db<Key, InviteSecret>
    requires key in db.objects
  {
    var v := db.objects[key].value;
    Rewrite(db, key, InviteSecret(v.tokenHash, v.capabilities, v.clusterID, v.region, v.expires, Some(now)))
  }

  /**
   A claim link opened alone: the claim is judged by the clock of the request and marked used, and the invitation made for
   it carries its cluster and region, the two onboarding capabilities and a quarter of an hour; or the refusal is the verdict.
   */
  lemma OnboardingAlone(s: State, c: CallId, tenant: string, id: string, hash: string, inviteId: string, inviteHash: string)
    requires c !in s.calls && FreshId(s.invites, inviteId)
    ensures var t := Next(Alone(Next(s, StartOnboarding(c, tenant, id, hash)), c, 2), MakeInvitation(c, inviteId, inviteHash, NoFault));
            var key, made := Key(tenant, id), Key(tenant, inviteId);
            var verdict := ClaimVerdict(s.claims, key, hash, s.clock);
            if verdict.Err? then t == Pending(s, c, Done(ClaimRefused(key, verdict.error)))
            else
              var claim := verdict.value;
              t == s.(claims := UsedClaim(s.claims, key, s.clock),
                      invites := Create(s.invites, made,
                        InviteSecret(inviteHash, ["service", "quic-mtls"], claim.value.clusterID, claim.value.region,
                                     WholeSeconds(s.clock + 15 * MINUTE), None)),
                      maker := s.maker[made := c],
                      calls := s.calls[c := Call(Done(Delivered), Some(key), true, Some(made), None, None)])
  {
    hide Next, ClaimVerdict, UsedClaim;
    var started := Next(s, StartOnboarding(c, tenant, id, hash));
    var key := Key(tenant, id);
    AloneTwice(started, c);
    OnboardingStarts(s, c, tenant, id, hash);
    var read := Alone(started, c, 1);
    var verdict := ClaimVerdict(s.claims, key, hash, s.clock);
    ClaimReadAlone(s, started, c, key, hash);
    if verdict.Err? {
      AnswersRest(read, c);
      AnsweredMakesNone(read, c, inviteId, inviteHash);
    } else {
      ClaimIsCurrent(s.claims, key, hash, s.clock);
      ClaimSpentAlone(read, c, key, hash, s.clock, verdict.value);
      InvitationAlone(Alone(started, c, 2), c, key, verdict.value.value.clusterID, verdict.value.value.region, inviteId, inviteHash);
    }
  }

  lemma OnboardingStarts(s: State, c: CallId, tenant: string, id: string, hash: string)
    requires c !in s.calls
    ensures Next(s, StartOnboarding(c, tenant, id, hash)) == Pending(s, c, ClaimRead(Key(tenant, id), hash, s.clock, 0))
  {
  }

  lemma ClaimReadAlone(s: State, started: State, c: CallId, key: Key, hash: string)
    requires started == Pending(s, c, ClaimRead(key, hash, s.clock, 0))
    ensures Next(started, Advance(c, NoFault)) ==
            var verdict := ClaimVerdict(s.claims, key, hash, s.clock);
            Pending(s, c, if verdict.Err? then Done(ClaimRefused(key, verdict.error)) else ClaimWrite(key, hash, s.clock, 0, verdict.value))
  {
    hide ClaimVerdict;
  }

  lemma ClaimIsCurrent(db: Db<Key, ClaimSecret>, key: Key, hash: string, now: Time)
    ensures ClaimVerdict(db, key, hash, now).Ok? ==> key in db.objects && db.objects[key] == ClaimVerdict(db, key, hash, now).value
  {
  }

  lemma AnsweredMakesNone(s: State, c: CallId, id: string, hash: string)
    requires c in s.calls && s.calls[c].pc.Done?
    ensures Next(s, MakeInvitation(c, id, hash, NoFault)) == s
  {
  }

  lemma InvitationAlone(s: State, c: CallId, key: Key, clusterID: string, region: string, id: string, hash: string)
    requires c in s.calls && s.calls[c] == Call(ClaimWon(key, clusterID, region), Some(key), true, None, None, None)
    requires FreshId(s.invites, id)
    ensures var made := Key(key.tenant, id);
            Next(s, MakeInvitation(c, id, hash, NoFault)) ==
            s.(invites := Create(s.invites, made,
                 InviteSecret(hash, ["service", "quic-mtls"], clusterID, region, WholeSeconds(s.clock + 15 * MINUTE), None)),
               maker := s.maker[made := c],
               calls := s.calls[c := Call(Done(Delivered), Some(key), true, Some(made), None, None)])
  {
  }

  lemma ClaimSpentAlone(s: State, c: CallId, key: Key, hash: string, now: Time, claim: Stored<ClaimSecret>)
    requires c in s.calls && s.calls[c] == Call(ClaimWrite(key, hash, now, 0, claim), None, false, None, None, None)
    requires key in s.claims.objects && s.claims.objects[key] == claim
    ensures Next(s, Advance(c, NoFault)) ==
            s.(claims := UsedClaim(s.claims, key, now),
               calls := s.calls[c := Call(ClaimWon(key, claim.value.clusterID, claim.value.region), Some(key), true, None, None, None)])
  {
  }

  /**
   An acceptance alone: without a well-formed identity and its owner's proof nothing happens; otherwise the invitation is
   judged by the clock of the request and marked used, and the identity is registered with the invitation's region, unless
   the cluster is registered already, or the refusal is the verdict.
   */
  lemma AcceptanceAlone(s: State, c: CallId, id: string, hash: string, v: Identity, proof: Signature<Identity>)
    requires c !in s.calls
    ensures var t := Alone(Next(s, StartAccept(c, id, hash, v, proof)), c, 3);
            var key, member := Key(v.tenant, id), Key(v.tenant, v.clusterID);
            if !ValidIdentity(v) || !SignatureValid(v.publicKey.value, v, proof) then t == s
            else
              var verdict := InviteVerdict(s.invites, key, hash, v, s.clock);
              if verdict.Err? then t == Pending(s, c, Done(InviteRefused(verdict.error)))
              else
                var invite := verdict.value;
                if member in s.identities.objects then
                  t == s.(invites := UsedInvite(s.invites, key, s.clock),
                          calls := s.calls[c := Call(Done(WriteFailed), None, false, None, Some(key), None)])
                else
                  t == s.(invites := UsedInvite(s.invites, key, s.clock),
                          identities := Create(s.identities, member, v.(region := invite.value.region)),
                          registrar := s.registrar[member := c],
                          calls := s.calls[c := Call(Done(Registered), None, false, None, Some(key), Some(member))])
  {
    hide Next, UsedInvite, InviteVerdict, SignatureValid;
    var started := Next(s, StartAccept(c, id, hash, v, proof));
    AcceptanceStarts(s, c, id, hash, v, proof);
    if ValidIdentity(v) && SignatureValid(v.publicKey.value, v, proof) {
      ValidAcceptanceAlone(s, started, c, Key(v.tenant, id), hash, v);
    } else {
      AloneTwice(started, c);
      NobodyAdvances(s, c);
      NobodyAdvances(Alone(started, c, 1), c);
      NobodyAdvances(Alone(started, c, 2), c);
    }
  }

  lemma ValidAcceptanceAlone(s: State, started: State, c: CallId, key: Key, hash: string, v: Identity)
    requires c !in s.calls && started == Pending(s, c, InviteRead(key, hash, v, s.clock))
    ensures var t := Alone(started, c, 3);
            var member, verdict := Key(v.tenant, v.clusterID), InviteVerdict(s.invites, key, hash, v, s.clock);
            if verdict.Err? then t == Pending(s, c, Done(InviteRefused(verdict.error)))
            else if member in s.identities.objects then
              t == s.(invites := UsedInvite(s.invites, key, s.clock),
                      calls := s.calls[c := Call(Done(WriteFailed), None, false, None, Some(key), None)])
            else
              t == s.(invites := UsedInvite(s.invites, key, s.clock),
                      identities := Create(s.identities, member, v.(region := verdict.value.value.region)),
                      registrar := s.registrar[member := c],
                      calls := s.calls[c := Call(Done(Registered), None, false, None, Some(key), Some(member))])
  {
    hide Next, UsedInvite, InviteVerdict;
    AloneTwice(started, c);
    var read := Alone(started, c, 1);
    ReadAlone(s, started, c, key, hash, v);
    var verdict := InviteVerdict(s.invites, key, hash, v, s.clock);
    VerdictIsCurrent(s.invites, key, hash, v, s.clock);
    if verdict.Err? {
      AnswersRest(read, c);
      AnswersRest(Alone(started, c, 2), c);
    } else {
      InviteSpentAlone(read, c, key, hash, s.clock, v, verdict.value);
      RegisteredAlone(Alone(started, c, 2), c, key, v.(region := verdict.value.value.region));
    }
  }

  lemma AcceptanceStarts(s: State, c: CallId, id: string, hash: string, v: Identity, proof: Signature<Identity>)
    requires c !in s.calls
    ensures Next(s, StartAccept(c, id, hash, v, proof)) ==
            if ValidIdentity(v) && SignatureValid(v.publicKey.value, v, proof) then Pending(s, c, InviteRead(Key(v.tenant, id), hash, v, s.clock))
            else s
  {
    hide SignatureValid;
  }

  lemma NobodyAdvances(s: State, c: CallId)
    requires c !in s.calls
    ensures Next(s, Advance(c, NoFault)) == s
  {
  }

  lemma AnswersRest(s: State, c: CallId)
    requires c in s.calls && s.calls[c].pc.Done?
    ensures Next(s, Advance(c, NoFault)) == s
  {
  }

  lemma VerdictIsCurrent(db: Db<Key, InviteSecret>, key: Key, hash: string, v: Identity, now: Time)
    ensures InviteVerdict(db, key, hash, v, now).Ok? ==> key in db.objects && db.objects[key] == InviteVerdict(db, key, hash, v, now).value
  {
  }

  lemma RegisteredAlone(s: State, c: CallId, key: Key, v: Identity)
    requires c in s.calls && s.calls[c] == Call(Registering(key, v), None, false, None, Some(key), None)
    ensures var member := Key(v.tenant, v.clusterID);
            Next(s, Advance(c, NoFault)) ==
            if member in s.identities.objects then s.(calls := s.calls[c := Call(Done(WriteFailed), None, false, None, Some(key), None)])
            else s.(identities := Create(s.identities, member, v), registrar := s.registrar[member := c],
                    calls := s.calls[c := Call(Done(Registered), None, false, None, Some(key), Some(member))])
  {
  }

  lemma ReadAlone(s: State, started: State, c: CallId, key: Key, hash: string, v: Identity)
    requires started == Pending(s, c, InviteRead(key, hash, v, s.clock))
    ensures Next(started, Advance(c, NoFault)) ==
            var verdict := InviteVerdict(s.invites, key, hash, v, s.clock);
            Pending(s, c, if verdict.Err? then Done(InviteRefused(verdict.error)) else InviteWrite(key, hash, v, s.clock, verdict.value))
  {
    hide ValidIdentity;
  }

  lemma InviteSpentAlone(s: State, c: CallId, key: Key, hash: string, now: Time, v: Identity, invite: Stored<InviteSecret>)
    requires c in s.calls && s.calls[c] == Call(InviteWrite(key, hash, v, now, invite), None, false, None, None, None)
    requires key in s.invites.objects && s.invites.objects[key] == invite
    ensures Next(s, Advance(c, NoFault)) ==
            s.(invites := UsedInvite(s.invites, key, now),
               calls := s.calls[c := Call(Registering(key, v.(region := invite.value.region)), None, false, None, Some(key), None)])
  {
  }

  /** A DNS label: one to 63 lower-case letters, digits and hyphens, with no hyphen at either end. */
  lemma DnsSafeIff(s: string)
    ensures DnsSafe(s) <==>
            && 0 < |s| < 64 && s[0] != '-' && s[|s| - 1] != '-'
            && forall i | 0 <= i < |s| :: 'a' <= s[i] <= 'z' || '0' <= s[i] <= '9' || s[i] == '-'
  {
  }

  /** A claim is created exactly for a lifetime of a minute to a day, a day if none is given, and expires after it to the second. */
  lemma ClaimsAreCreated(s: State, key: Key, hash: string, clusterID: string, region: string, ttl: int)
    ensures var seconds := if ttl == 0 then 86400 else ttl;
            Next(s, NewClaim(key, hash, clusterID, region, ttl)) ==
            if SlashFree(key.tenant) && FreshId(s.claims, key.id) && DnsSafe(clusterID) && DnsSafe(region) && 60 <= seconds <= 86400
            then s.(claims := Create(s.claims, key, ClaimSecret(hash, clusterID, region, WholeSeconds(s.clock + seconds * SECOND), None)))
            else s
  {
  }

  /** An invitation likewise, with a quarter of an hour if no lifetime is given and bound to no cluster. */
  lemma InvitationsAreCreated(s: State, key: Key, hash: string, capabilities: seq<string>, ttl: int)
    ensures var seconds := if ttl == 0 then 900 else ttl;
            Next(s, NewInvitation(key, hash, capabilities, ttl)) ==
            if SlashFree(key.tenant) && FreshId(s.invites, key.id) && 60 <= seconds <= 86400
            then s.(invites := Create(s.invites, key, InviteSecret(hash, capabilities, "", "", WholeSeconds(s.clock + seconds * SECOND), None)))
            else s
  {
  }
}
