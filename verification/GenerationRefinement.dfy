/**
 Generation recording against the in-memory store: every record the cluster store commits is one the
 in-memory store accepts, except that only the latter remembers nonces.
 */
module GenerationRefinement {
  import opened Values
  import opened ApiServer
  import opened ControlPlane
  import opened Protocol
  import ControlTheorems
  import M = MemoryStore

  predicate Recording(s: State, step: Step) {
    && step.Advance? && step.c in s.calls && s.calls[step.c].pc.RecordWrite? && !step.fault.WriteRefused?
    && Matches(s.identities, s.calls[step.c].issuer, s.calls[step.c].pc.record)
  }

  /** The store operation a step commits, if it commits a generation record. */
  function Commit(s: State, step: Step): seq<M.Op> {
    if Recording(s, step) then
      var call := s.calls[step.c];
      [M.RecordGeneration(call.issuer.tenant, call.issuer.id, call.message.envelope.generation, call.message.envelope.nonce)]
    else []
  }

  /** The generation records of a schedule in commit order, those behind lost replies included. */
  function Commits(schedule: seq<Step>): (ops: seq<M.Op>)
    ensures forall op <- ops :: op.RecordGeneration?
  {
    if schedule == [] then []
    else
      var before := schedule[..|schedule| - 1];
      Commits(before) + Commit(Exec(before), schedule[|schedule| - 1])
  }

  /** No identity has two records under the same nonce. */
  predicate NoncesDistinct(ops: seq<M.Op>)
    requires forall op <- ops :: op.RecordGeneration?
  {
    forall i, j | 0 <= i < j < |ops| && ops[i].tenant == ops[j].tenant && ops[i].id == ops[j].id :: ops[i].nonce != ops[j].nonce
  }

  /** Tenants are namespaces, whose names hold no slash. */
  predicate Namespaces(schedule: seq<Step>) {
    forall step <- schedule :: step.Register? ==> SlashFree(step.identity.tenant)
  }

  predicate TenantsSlashFree(db: Db<Key, Registration>) {
    forall k <- db.objects :: SlashFree(k.tenant)
  }

  predicate GenerationsAgree(db: Db<Key, Registration>, m: M.MemoryState) {
    forall k <- db.objects :: M.LastGeneration(m, k.tenant, k.id) == ToUint64(db.objects[k].value.lastGeneration)
  }

  ghost predicate NoncesAgree(ops: seq<M.Op>, m: M.MemoryState)
    requires forall op <- ops :: op.RecordGeneration?
  {
    && (forall op <- ops :: SlashFree(op.tenant))
    && (forall key <- m.nonces :: forall n <- m.nonces[key] :: exists op <- ops :: Joined(op.tenant, op.id) == key && op.nonce == n)
    && (forall op <- ops :: op.nonce in M.NoncesOf(m, Joined(op.tenant, op.id)))
  }

  /** No generation belongs to an identity that was never registered. */
  predicate GenerationsKnown(db: Db<Key, Registration>, m: M.MemoryState) {
    forall j <- m.generations :: exists k <- db.objects :: j == Joined(k.tenant, k.id)
  }

  ghost predicate Agree(s: State, ops: seq<M.Op>, m: M.MemoryState)
    requires forall op <- ops :: op.RecordGeneration?
  {
    GenerationsAgree(s.identities, m) && GenerationsKnown(s.identities, m) && NoncesAgree(ops, m)
  }

  /** A step that records nothing leaves every recorded generation alone and registers identities at zero. */
  lemma QuietStep(s: State, step: Step, k: Key)
    requires !Recording(s, step) && k in Next(s, step).identities.objects
    ensures k in s.identities.objects ==> Next(s, step).identities.objects[k].value.lastGeneration == s.identities.objects[k].value.lastGeneration
    ensures k !in s.identities.objects ==>
      step.Register? && k.tenant == step.identity.tenant && Next(s, step).identities.objects[k].value.lastGeneration == 0
  {
  }

  lemma QuietKeeps(s: State, step: Step, k: Key)
    requires !Recording(s, step) && k in s.identities.objects
    ensures k in Next(s, step).identities.objects
  {
  }

  lemma QuietAgree(s: State, step: Step, ops: seq<M.Op>, m: M.MemoryState)
    requires (forall op <- ops :: op.RecordGeneration?) && Agree(s, ops, m) && !Recording(s, step)
    requires TenantsSlashFree(Next(s, step).identities)
    ensures Agree(Next(s, step), ops, m)
  {
    hide Next;
    var t := Next(s, step);
    forall k | k in t.identities.objects ensures M.LastGeneration(m, k.tenant, k.id) == ToUint64(t.identities.objects[k].value.lastGeneration) {
      QuietStep(s, step, k);
      if k !in s.identities.objects && Joined(k.tenant, k.id) in m.generations {
        var j :| j in s.identities.objects && Joined(k.tenant, k.id) == Joined(j.tenant, j.id);
        QuietKeeps(s, step, j);
        JoinedInjective(k.tenant, k.id, j.tenant, j.id);
      }
    }
    forall j | j in m.generations ensures exists k <- t.identities.objects :: j == Joined(k.tenant, k.id) {
      var k :| k in s.identities.objects && j == Joined(k.tenant, k.id);
      QuietKeeps(s, step, k);
    }
  }

  /** A committed record passes the in-memory store's generation test. */
  lemma RecordIsNew(s: State, step: Step, m: M.MemoryState)
    requires Recording(s, step) && CallOk(s, s.calls[step.c]) && GenerationsAgree(s.identities, m)
    ensures var call := s.calls[step.c];
            M.LastGeneration(m, call.issuer.tenant, call.issuer.id) < call.message.envelope.generation
            && Uint64(call.message.envelope.generation)
  {
  }

  lemma RecordCommits(s: State, step: Step)
    requires Recording(s, step)
    ensures var call, t := s.calls[step.c], Next(s, step);
            && call.issuer in s.identities.objects
            && t.identities.objects.Keys == s.identities.objects.Keys
            && t.identities.objects[call.issuer].value.lastGeneration == ToInt64(call.message.envelope.generation)
            && forall k <- s.identities.objects :: k != call.issuer ==> t.identities.objects[k] == s.identities.objects[k]
  {
  }

  lemma RecordAgree(s: State, step: Step, ops: seq<M.Op>, m: M.MemoryState)
    requires (forall op <- ops :: op.RecordGeneration?) && Agree(s, ops, m)
    requires Recording(s, step) && CallOk(s, s.calls[step.c]) && TenantsSlashFree(s.identities)
    requires M.Step(m, Commit(s, step)[0]).Ok?
    ensures Agree(Next(s, step), ops + Commit(s, step), M.Step(m, Commit(s, step)[0]).value)
  {
    hide Next, CallOk;
    var call, t, op := s.calls[step.c], Next(s, step), Commit(s, step)[0];
    var after := M.Step(m, op).value;
    RecordIsNew(s, step, m);
    ControlTheorems.CastsCancel(op.g);
    RecordCommits(s, step);
    forall k | k in t.identities.objects ensures M.LastGeneration(after, k.tenant, k.id) == ToUint64(t.identities.objects[k].value.lastGeneration) {
      if k != call.issuer && Joined(k.tenant, k.id) == Joined(op.tenant, op.id) {
        JoinedInjective(k.tenant, k.id, op.tenant, op.id);
      }
    }
    NoncesRecorded(ops, m, op);
  }

  lemma NoncesRecorded(ops: seq<M.Op>, m: M.MemoryState, op: M.Op)
    requires (forall o <- ops :: o.RecordGeneration?) && op.RecordGeneration? && SlashFree(op.tenant)
    requires NoncesAgree(ops, m) && M.Step(m, op).Ok?
    ensures NoncesAgree(ops + [op], M.Step(m, op).value)
  {
    var after, key := M.Step(m, op).value, Joined(op.tenant, op.id);
    assert op in ops + [op] && forall o <- ops :: o in ops + [op];
    forall k, n | k in after.nonces && n in after.nonces[k]
      ensures exists o <- ops + [op] :: Joined(o.tenant, o.id) == k && o.nonce == n
    {
      if !(k == key && n == op.nonce) {
        assert k in m.nonces && n in m.nonces[k];
        var o :| o in ops && Joined(o.tenant, o.id) == k && o.nonce == n;
        assert o in ops + [op];
      }
    }
  }

  predicate SameNonce(a: M.Op, b: M.Op)
    requires a.RecordGeneration? && b.RecordGeneration?
  {
    a.tenant == b.tenant && a.id == b.id && a.nonce == b.nonce
  }

  lemma OneMoreNonce(ops: seq<M.Op>, op: M.Op)
    requires (forall o <- ops :: o.RecordGeneration?) && op.RecordGeneration?
    ensures NoncesDistinct(ops + [op]) <==> NoncesDistinct(ops) && forall o <- ops :: !SameNonce(o, op)
  {
    var more := ops + [op];
    assert more[|ops|] == op && more[..|ops|] == ops;
    if NoncesDistinct(more) {
      forall i, j | 0 <= i < j < |ops| && ops[i].tenant == ops[j].tenant && ops[i].id == ops[j].id ensures ops[i].nonce != ops[j].nonce {
        assert more[i] == ops[i] && more[j] == ops[j];
      }
      forall o | o in ops ensures !SameNonce(o, op) {
        var i :| 0 <= i < |ops| && ops[i] == o;
        assert more[i] == o;
      }
    } else if NoncesDistinct(ops) {
      var i, j :| 0 <= i < j < |more| && more[i].tenant == more[j].tenant && more[i].id == more[j].id && more[i].nonce == more[j].nonce;
      assert forall x | 0 <= x < |ops| :: more[x] == ops[x];
      assert ops[i] in ops && SameNonce(ops[i], op);
    }
  }

  /** The in-memory store refuses a committed record exactly when its nonce is not new. */
  lemma AcceptedIffNonceNew(ops: seq<M.Op>, m: M.MemoryState, op: M.Op)
    requires (forall o <- ops :: o.RecordGeneration?) && op.RecordGeneration? && SlashFree(op.tenant)
    requires NoncesAgree(ops, m) && M.LastGeneration(m, op.tenant, op.id) < op.g
    ensures M.Step(m, op).Ok? <==> forall o <- ops :: !SameNonce(o, op)
    ensures M.Step(m, op).Err? ==> M.Step(m, op).error == M.NonceReplayed
  {
    var key := Joined(op.tenant, op.id);
    if key in m.nonces && op.nonce in m.nonces[key] {
      var o :| o in ops && Joined(o.tenant, o.id) == key && o.nonce == op.nonce;
      JoinedInjective(o.tenant, o.id, op.tenant, op.id);
      assert SameNonce(o, op);
    }
  }

  lemma {:induction false} SlashFreeTenants(schedule: seq<Step>)
    requires Namespaces(schedule)
    ensures TenantsSlashFree(Exec(schedule).identities)
  {
    hide Next;
    if schedule != [] {
      var before, step := schedule[..|schedule| - 1], schedule[|schedule| - 1];
      SlashFreeTenants(before);
      var s := Exec(before);
      assert step in schedule;
      forall k | k in Next(s, step).identities.objects ensures SlashFree(k.tenant) {
        if Recording(s, step) { RecordCommits(s, step); } else { QuietStep(s, step, k); }
      }
    }
  }

  /**
   The generation records of every run, replayed in commit order by the in-memory store, are all accepted exactly
   when no identity used a nonce twice, and then both stores hold the same last generations.
   */
  lemma {:induction false} RecordsRefineMemoryStore(schedule: seq<Step>)
    requires Namespaces(schedule)
    ensures M.Replay(Commits(schedule)).Some? <==> NoncesDistinct(Commits(schedule))
    ensures M.Replay(Commits(schedule)).Some? ==> Agree(Exec(schedule), Commits(schedule), M.Replay(Commits(schedule)).value)
  {
    hide Next, Agree, NoncesAgree, Recording;
    if schedule == [] {
      NothingRecorded();
    } else {
      var before, step := schedule[..|schedule| - 1], schedule[|schedule| - 1];
      assert forall x <- before :: x in schedule;
      RecordsRefineMemoryStore(before);
      ControlTheorems.Invariant(before);
      SlashFreeTenants(before);
      SlashFreeTenants(schedule);
      RecordsStep(before, step);
    }
  }

  lemma NothingRecorded()
    ensures Agree(INIT, [], M.EMPTY) && NoncesDistinct([])
  {
  }

  lemma RecordsStep(before: seq<Step>, step: Step)
    requires var s := Exec(before);
             && Inv(s) && TenantsSlashFree(s.identities) && TenantsSlashFree(Next(s, step).identities)
             && (M.Replay(Commits(before)).Some? <==> NoncesDistinct(Commits(before)))
             && (M.Replay(Commits(before)).Some? ==> Agree(s, Commits(before), M.Replay(Commits(before)).value))
    ensures var s, ops := Exec(before), Commits(before) + Commit(Exec(before), step);
            && (M.Replay(ops).Some? <==> NoncesDistinct(ops))
            && (M.Replay(ops).Some? ==> Agree(Next(s, step), ops, M.Replay(ops).value))
  {
    hide Next, CallOk, GenerationsAgree, GenerationsKnown, NoncesAgree, NoncesDistinct, TenantsSlashFree, PassesOk, PeersOk, HistoriesOk, StoresOk;
    var s, ops := Exec(before), Commits(before);
    if Recording(s, step) {
      assert CallOk(s, s.calls[step.c]);
      var op := Commit(s, step)[0];
      OneMoreNonce(ops, op);
      if M.Replay(ops).Some? {
        var m := M.Replay(ops).value;
        RecordIsNew(s, step, m);
        IssuerIsSlashFree(s, step);
        AcceptedIffNonceNew(ops, m, op);
        M.ReplayExtends(ops, op);
        if M.Step(m, op).Ok? { RecordAgree(s, step, ops, m); }
      } else {
        assert (ops + [op])[..|ops|] == ops;
      }
    } else {
      assert ops + Commit(s, step) == ops;
      if M.Replay(ops).Some? { QuietAgree(s, step, ops, M.Replay(ops).value); }
    }
  }

  lemma IssuerIsSlashFree(s: State, step: Step)
    requires Recording(s, step) && TenantsSlashFree(s.identities)
    ensures SlashFree(s.calls[step.c].issuer.tenant)
  {
  }

  // ---------------------------------------------------------------------------------------------
  // A run on which the stores differ
  // ---------------------------------------------------------------------------------------------

  const OWNER: PrivateKey := PrivateKey(0)
  function Zeros(n: nat): (s: string)
    ensures |s| == n && forall i | 0 <= i < n :: s[i] == '0'
  {
    if n == 0 then "" else "0" + Zeros(n - 1)
  }

  const MEMBER: Identity := Identity(
    "c", "", "t", "d", "spiffe://d/cluster/c", "sha256:" + Zeros(64), Some(PublicOf(OWNER)), [], [])
  const ISSUER: Key := Key("t", "c")
  const NONCE: string := "n"

  /** A heartbeat-like message of generation `g`, always under the same nonce. */
  function Repeated(g: nat): Message {
    Sign(Envelope("spiffe://d/cluster/c", "hub", g, 1, 1 + MINUTE, NONCE, "heartbeat", Malformed), OWNER)
  }

  lemma MemberIsValid()
    ensures ValidIdentity(MEMBER)
  {
    assert "spiffe://" + "d" + "/cluster/" + "c" == "spiffe://d/cluster/c";
    hide Zeros;
    assert MEMBER.bundleDigest[..7] == "sha256:";
  }

  /** MEMBER is registered and its last record is generation `g`; the first `g` calls have come and gone. */
  predicate RecordedUpTo(s: State, g: nat) {
    && s.clock == 1 && g < TWO63 && g !in s.calls
    && ISSUER in s.identities.objects && s.identities.objects[ISSUER].value.spec == MEMBER
    && s.identities.objects[ISSUER].value.lastGeneration == g
  }

  lemma Then(schedule: seq<Step>, step: Step) returns (longer: seq<Step>)
    ensures longer == schedule + [step] && Exec(longer) == Next(Exec(schedule), step)
    ensures Commits(longer) == Commits(schedule) + Commit(Exec(schedule), step)
    ensures Namespaces(schedule) && !step.Register? ==> Namespaces(longer)
  {
    longer := schedule + [step];
    assert longer[..|schedule|] == schedule;
  }

  predicate CallAt(s: State, g: nat, pc: Pc) {
    && s.clock == 1 && g in s.calls && s.calls[g] == Call(ISSUER, Repeated(g + 1), pc, None)
    && ISSUER in s.identities.objects && s.identities.objects[ISSUER].value.spec == MEMBER
    && s.identities.objects[ISSUER].value.lastGeneration == g
  }

  function Onwards(g: nat): Step {
    Advance(g, NoFault, true)
  }

  /** One step of the handler that records nothing. */
  predicate Moves(s: State, g: nat, pc: Pc) {
    var t := Next(s, Onwards(g));
    CallAt(t, g, pc) && !Recording(s, Onwards(g)) && t.calls.Keys == s.calls.Keys
  }

  lemma ArrivedMoves(s: State, g: nat)
    ensures CallAt(s, g, Arrived) ==> Moves(s, g, Known(MEMBER))
    ensures CallAt(s, g, Known(MEMBER)) ==> Moves(s, g, Checking(MEMBER, g))
  {
    hide ValidIdentity, Check, WriteRecord, WriteConfirmation, Repeated;
  }

  lemma CheckingMoves(s: State, g: nat)
    requires CallAt(s, g, Checking(MEMBER, g)) && g + 1 < TWO63
    ensures Moves(s, g, Dispatching)
  {
    hide ValidIdentity, WriteRecord, WriteConfirmation;
    assert "route."[0] != "heartbeat"[0];
  }

  predicate WritesNext(s: State, g: nat) {
    ISSUER in s.identities.objects && CallAt(s, g, RecordWrite(s.identities.objects[ISSUER]))
  }

  lemma DispatchingMoves(s: State, g: nat)
    requires g + 1 < TWO63
    ensures CallAt(s, g, Dispatching) ==> Moves(s, g, ControlPlane.Recording)
    ensures CallAt(s, g, ControlPlane.Recording) ==>
              var t := Next(s, Onwards(g)); WritesNext(t, g) && !Recording(s, Onwards(g)) && t.calls.Keys == s.calls.Keys
  {
    hide ValidIdentity, Check, WriteRecord, WriteConfirmation;
    assert CONFIRM[0] != "heartbeat"[0];
  }

  lemma WriteMoves(s: State, g: nat)
    requires WritesNext(s, g) && g + 1 < TWO63 && g + 1 !in s.calls
    ensures var t := Next(s, Onwards(g));
            && RecordedUpTo(t, g + 1) && t.calls.Keys == s.calls.Keys && t.calls[g].pc == Done(Accepted)
            && Commit(s, Onwards(g)) == [M.RecordGeneration("t", "c", g + 1, NONCE)]
  {
    hide ValidIdentity, Check, WriteConfirmation;
  }

  lemma MessageArrives(s: State, g: nat)
    requires RecordedUpTo(s, g) && g + 1 < TWO63
    ensures var t := Next(s, Arrive(g, ISSUER, Repeated(g + 1))); CallAt(t, g, Arrived) && t.calls.Keys == s.calls.Keys + {g}
  {
  }

  /** The next message arrives, passes every check and is recorded. */
  lemma RecordsOne(schedule: seq<Step>, g: nat) returns (longer: seq<Step>)
    requires RecordedUpTo(Exec(schedule), g) && g + 1 < TWO63 && g + 1 !in Exec(schedule).calls && Namespaces(schedule)
    ensures RecordedUpTo(Exec(longer), g + 1) && Namespaces(longer)
    ensures Exec(longer).calls.Keys == Exec(schedule).calls.Keys + {g} && Exec(longer).calls[g].pc == Done(Accepted)
    ensures Commits(longer) == Commits(schedule) + [M.RecordGeneration("t", "c", g + 1, NONCE)]
  {
    hide Next, Exec, Commits, Recording, RecordedUpTo, Namespaces, CallAt, WritesNext;
    MessageArrives(Exec(schedule), g);
    longer := Then(schedule, Arrive(g, ISSUER, Repeated(g + 1)));
    ArrivalRecordsNothing(Exec(schedule), g);
    ArrivedMoves(Exec(longer), g);
    longer := Then(longer, Onwards(g));
    ArrivedMoves(Exec(longer), g);
    longer := Then(longer, Onwards(g));
    CheckingMoves(Exec(longer), g);
    longer := Then(longer, Onwards(g));
    DispatchingMoves(Exec(longer), g);
    longer := Then(longer, Onwards(g));
    DispatchingMoves(Exec(longer), g);
    longer := Then(longer, Onwards(g));
    WriteMoves(Exec(longer), g);
    longer := Then(longer, Onwards(g));
  }

  lemma ArrivalRecordsNothing(s: State, g: nat)
    ensures Commit(s, Arrive(g, ISSUER, Repeated(g + 1))) == []
  {
  }

  /** A reachable run in which an identity repeats a nonce: the cluster store records both messages, the in-memory store refuses the second. */
  lemma RepeatedNonceIsReached() returns (schedule: seq<Step>)
    ensures Namespaces(schedule)
    ensures Commits(schedule) == [M.RecordGeneration("t", "c", 1, NONCE), M.RecordGeneration("t", "c", 2, NONCE)]
    ensures M.Replay(Commits(schedule)).None?
    ensures 1 in Exec(schedule).calls && Exec(schedule).calls[1].pc == Done(Accepted)
  {
    hide Exec, Commits, Commit, CallAt;
    MemberIsValid();
    schedule := StartsEmpty();
    schedule := RecordsOne(schedule, 0);
    schedule := RecordsOne(schedule, 1);
    var ops := Commits(schedule);
    assert !NoncesDistinct(ops) by { assert ops[0].nonce == ops[1].nonce; }
    RecordsRefineMemoryStore(schedule);
  }

  lemma StartsEmpty() returns (schedule: seq<Step>)
    ensures RecordedUpTo(Exec(schedule), 0) && Namespaces(schedule) && Commits(schedule) == [] && Exec(schedule).calls == map[]
  {
    MemberIsValid();
    schedule := Then([], Register(MEMBER));
  }
}
