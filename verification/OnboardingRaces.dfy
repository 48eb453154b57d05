/** Racing consumers of one claim: how many outside writes exhaust the retries, and who knows that it won. */
module OnboardingRaces {
  import opened Values
  import opened ApiServer
  import opened Onboarding
  import opened OnboardingTheorems
  import M = MemoryStore

  // ---------------------------------------------------------------------------------------------
  // The retry budget
  // ---------------------------------------------------------------------------------------------

  /** How often anyone but a consumer wrote the claim under `k`. */
  function Foreign(schedule: seq<Step>, k: Key): nat {
    if schedule == [] then 0
    else Foreign(schedule[..|schedule| - 1], k) + if schedule[|schedule| - 1] == TouchClaim(k) then 1 else 0
  }

  function Spent(claims: Db<Key, ClaimSecret>, k: Key): nat {
    if UsedIn(claims, k) then 1 else 0
  }

  /** Every attempt that was lost, or is about to be, was lost to a foreign write or to the one consumption; `foreign` counts for the key at stake. */
  predicate Budget(claims: Db<Key, ClaimSecret>, foreign: nat, pc: Pc) {
    match pc
    case ClaimRead(key, _, _, attempt) => attempt <= 2 && attempt <= foreign + Spent(claims, key)
    case ClaimWrite(key, _, _, attempt, snapshot) =>
      && attempt <= 2 && key in claims.objects
      && attempt + (if Matches(claims, key, snapshot) then 0 else 1) <= foreign + Spent(claims, key)
    case Done(answer) => answer.ClaimConflict? ==> foreign >= 2
    case _ => true
  }

  /** The claim a call contends for, or has given up. */
  function Contended(pc: Pc): Option<Key> {
    match pc
    case ClaimRead(key, _, _, _) => Some(key)
    case ClaimWrite(key, _, _, _, _) => Some(key)
    case Done(answer) => if answer.ClaimConflict? then Some(answer.contested) else None
    case _ => None
  }

  predicate Within(claims: Db<Key, ClaimSecret>, schedule: seq<Step>, pc: Pc) {
    Contended(pc).Some? ==> Budget(claims, Foreign(schedule, Contended(pc).value), pc)
  }

  predicate AllWithin(schedule: seq<Step>) {
    forall c <- Exec(schedule).calls :: Within(Exec(schedule).claims, schedule, Exec(schedule).calls[c].pc)
  }

  /** What a step may do to a claim that exists: nothing, the one consumption, or a foreign write. */
  predicate ClaimsMove(a: Db<Key, ClaimSecret>, b: Db<Key, ClaimSecret>, step: Step) {
    forall k <- a.objects ::
      && k in b.objects
      && (|| b.objects[k] == a.objects[k]
          || (!UsedIn(a, k) && UsedIn(b, k))
          || (step == TouchClaim(k) && b.objects[k].value == a.objects[k].value))
  }

  lemma BudgetSurvives(a: Db<Key, ClaimSecret>, b: Db<Key, ClaimSecret>, step: Step, foreign: nat, pc: Pc)
    requires Contended(pc).Some? && Budget(a, foreign, pc) && ClaimsMove(a, b, step)
    ensures Budget(b, foreign + if step == TouchClaim(Contended(pc).value) then 1 else 0, pc)
  {
    if pc.ClaimRead? && !UsedIn(a, pc.key) {
      assert Spent(a, pc.key) == 0;
    }
  }

  /** A step moves at most the one call it names. */
  lemma OthersStay(s: State, step: Step, d: CallId)
    requires d in Next(s, step).calls
    requires step.Tick? || step.NewClaim? || step.NewInvitation? || step.TouchClaim? || step.TouchInvite? || step.c != d
    ensures d in s.calls && Next(s, step).calls[d] == s.calls[d]
  {
  }

  lemma WriteClaimBudget(s: State, c: CallId, fault: Fault, foreign: nat)
    requires c in s.calls && s.calls[c].pc.ClaimWrite? && CallOk(s, s.calls[c]) && Budget(s.claims, foreign, s.calls[c].pc)
    ensures ClaimsMove(s.claims, WriteClaim(s, c, fault).claims, Advance(c, fault))
    ensures Budget(WriteClaim(s, c, fault).claims, foreign, WriteClaim(s, c, fault).calls[c].pc)
    ensures var pc := WriteClaim(s, c, fault).calls[c].pc; Contended(pc).Some? ==> Contended(pc) == Some(s.calls[c].pc.key)
  {
  }

  lemma ReadClaimBudget(s: State, call: Call, foreign: nat)
    requires call.pc.ClaimRead? && Budget(s.claims, foreign, call.pc)
    ensures Budget(s.claims, foreign, AfterClaimRead(s, call.pc))
    ensures var pc := AfterClaimRead(s, call.pc); Contended(pc).Some? ==> Contended(pc) == Some(call.pc.key)
  {
  }

  lemma AdvanceBudget(s: State, c: CallId, fault: Fault, schedule: seq<Step>)
    requires c in s.calls && CallOk(s, s.calls[c]) && Within(s.claims, schedule, s.calls[c].pc)
    ensures ClaimsMove(s.claims, AdvanceCall(s, c, fault).claims, Advance(c, fault))
    ensures Within(AdvanceCall(s, c, fault).claims, schedule, AdvanceCall(s, c, fault).calls[c].pc)
  {
    hide CallOk, WriteClaim, AfterClaimRead, AfterInviteRead, WriteInvite, Register, Budget;
    var pc := s.calls[c].pc;
    match pc
    case ClaimRead(key, _, _, _) => ReadClaimBudget(s, s.calls[c], Foreign(schedule, key));
    case ClaimWrite(key, _, _, _, _) => WriteClaimBudget(s, c, fault, Foreign(schedule, key));
    case _ =>
  }

  lemma QuietBudget(s: State, step: Step, schedule: seq<Step>)
    requires CallsOk(s) && (forall c <- s.calls :: Within(s.claims, schedule, s.calls[c].pc))
    ensures ClaimsMove(s.claims, Next(s, step).claims, step)
    ensures step.StartOnboarding? || step.StartAccept? || step.Advance? || step.MakeInvitation? ==>
      step.c in Next(s, step).calls ==> Within(Next(s, step).claims, schedule, Next(s, step).calls[step.c].pc)
  {
    hide CallOk, AdvanceCall, Within;
    if step.Advance? && step.c in s.calls {
      assert CallOk(s, s.calls[step.c]);
      AdvanceBudget(s, step.c, step.fault, schedule);
    }
    if (step.StartOnboarding? || step.StartAccept?) && step.c !in s.calls { StartWithin(s, step, schedule); }
    if step.MakeInvitation? { MadeWithin(s, step, schedule); }
  }

  lemma StartWithin(s: State, step: Step, schedule: seq<Step>)
    requires (step.StartOnboarding? || step.StartAccept?) && step.c !in s.calls
    ensures step.c in Next(s, step).calls ==> Within(Next(s, step).claims, schedule, Next(s, step).calls[step.c].pc)
  {
  }

  lemma MadeWithin(s: State, step: Step, schedule: seq<Step>)
    requires step.MakeInvitation? && (step.c in s.calls ==> Within(s.claims, schedule, s.calls[step.c].pc))
    ensures step.c in Next(s, step).calls ==> Within(Next(s, step).claims, schedule, Next(s, step).calls[step.c].pc)
  {
  }

  lemma {:induction false} RacesAreWithin(schedule: seq<Step>)
    ensures AllWithin(schedule)
  {
    hide Next, Inv, Budget, ClaimsMove;
    if schedule != [] {
      var before, step := schedule[..|schedule| - 1], schedule[|schedule| - 1];
      var s, t := Exec(before), Exec(schedule);
      RacesAreWithin(before);
      Invariant(before);
      CallsAreOk(s);
      QuietBudget(s, step, before);
      forall d | d in t.calls ensures Within(t.claims, schedule, t.calls[d].pc) {
        if step.Tick? || step.NewClaim? || step.NewInvitation? || step.TouchClaim? || step.TouchInvite? || step.c != d {
          OthersStay(s, step, d);
          var pc := t.calls[d].pc;
          if Contended(pc).Some? {
            BudgetSurvives(s.claims, t.claims, step, Foreign(before, Contended(pc).value), pc);
          }
        }
      }
    }
  }

  lemma CallsAreOk(s: State)
    requires Inv(s)
    ensures CallsOk(s)
  {
  }

  predicate OnlyConsumersWrite(schedule: seq<Step>) {
    forall step <- schedule :: !step.TouchClaim?
  }

  predicate ThirdAttempt(pc: Pc, k: Key) {
    (pc.ClaimRead? || pc.ClaimWrite?) && pc.key == k && pc.attempt >= 2
  }

  lemma {:induction false} NothingForeign(schedule: seq<Step>, k: Key)
    requires OnlyConsumersWrite(schedule)
    ensures Foreign(schedule, k) == 0
  {
    if schedule != [] {
      NothingForeign(schedule[..|schedule| - 1], k);
    }
  }

  /** What a conflict answer and a third attempt cost, in every run. */
  lemma ForeignWritesNeeded(schedule: seq<Step>, c: CallId, k: Key)
    requires c in Exec(schedule).calls
    ensures Exec(schedule).calls[c].pc == Done(ClaimConflict(k)) ==> Foreign(schedule, k) >= 2
    ensures ThirdAttempt(Exec(schedule).calls[c].pc, k) ==> Foreign(schedule, k) >= 1
  {
    RacesAreWithin(schedule);
    assert Within(Exec(schedule).claims, schedule, Exec(schedule).calls[c].pc);
  }

  /** While only consumers write claim secrets, no call makes a third attempt or answers "claim update conflict". */
  lemma RetriesNeverRunOut(schedule: seq<Step>, c: CallId)
    requires OnlyConsumersWrite(schedule) && c in Exec(schedule).calls
    ensures match Exec(schedule).calls[c].pc
            case ClaimRead(_, _, _, attempt) => attempt < 2
            case ClaimWrite(_, _, _, attempt, _) => attempt < 2
            case Done(answer) => !answer.ClaimConflict?
            case _ => true
  {
    var pc := Exec(schedule).calls[c].pc;
    if Contended(pc).Some? {
      NothingForeign(schedule, Contended(pc).value);
      ForeignWritesNeeded(schedule, c, Contended(pc).value);
    }
  }

  // ---------------------------------------------------------------------------------------------
  // Runs that reach the bounds
  // ---------------------------------------------------------------------------------------------

  lemma Then(schedule: seq<Step>, step: Step, k: Key) returns (longer: seq<Step>)
    ensures longer == schedule + [step] && Exec(longer) == Next(Exec(schedule), step)
    ensures Foreign(longer, k) == Foreign(schedule, k) + if step == TouchClaim(k) then 1 else 0
  {
    longer := schedule + [step];
    assert longer[..|schedule|] == schedule;
  }

  /** Calls 0 and 1 both want the valid claim under `k`; call 0 is about to make attempt `attempt`, call 1 its first. */
  predicate Contested(s: State, k: Key, attempt: nat) {
    && Valid(s.claims) && ClaimVerdict(s.claims, k, "", 1).Ok?
    && 0 in s.calls && s.calls[0].pc == ClaimRead(k, "", 1, attempt)
    && 1 in s.calls && s.calls[1].pc == ClaimRead(k, "", 1, 0)
    && s.calls[0].claimed.None? && s.calls[1].claimed.None?
    && s.calls.Keys == {0, 1}
  }

  lemma Opens(k: Key) returns (schedule: seq<Step>)
    requires SlashFree(k.tenant)
    ensures Contested(Exec(schedule), k, 0) && Foreign(schedule, k) == 0
  {
    schedule := Then([], NewClaim(k, "", "a", "a", 60), k);
    schedule := Then(schedule, StartOnboarding(0, k.tenant, k.id, ""), k);
    schedule := Then(schedule, StartOnboarding(1, k.tenant, k.id, ""), k);
  }

  /** Call 0 reads, the claim is written from outside, and call 0's write conflicts. */
  lemma LosesToForeign(schedule: seq<Step>, k: Key, attempt: nat) returns (longer: seq<Step>)
    requires Contested(Exec(schedule), k, attempt) && attempt < 2
    ensures Contested(Exec(longer), k, attempt + 1) && Foreign(longer, k) == Foreign(schedule, k) + 1
  {
    longer := Then(schedule, Advance(0, NoFault), k);
    ghost var snapshot := Exec(longer).calls[0].pc;
    longer := Then(longer, TouchClaim(k), k);
    assert Exec(longer).calls[0].pc == snapshot && !Matches(Exec(longer).claims, k, snapshot.claimSnapshot);
    longer := Then(longer, Advance(0, NoFault), k);
  }

  /** Call 0 reads, call 1 consumes the claim, and call 0's write conflicts. */
  lemma LosesToRival(schedule: seq<Step>, k: Key, attempt: nat) returns (longer: seq<Step>)
    requires Contested(Exec(schedule), k, attempt)
    ensures Foreign(longer, k) == Foreign(schedule, k) && 0 in Exec(longer).calls
    ensures Exec(longer).calls[0].pc == if attempt < 2 then ClaimRead(k, "", 1, attempt + 1) else Done(ClaimConflict(k))
  {
    longer := Then(schedule, Advance(0, NoFault), k);
    ghost var snapshot := Exec(longer).calls[0].pc;
    longer := Then(longer, Advance(1, NoFault), k);
    longer := Then(longer, Advance(1, NoFault), k);
    assert Exec(longer).calls[0].pc == snapshot && !Matches(Exec(longer).claims, k, snapshot.claimSnapshot);
    longer := Then(longer, Advance(0, NoFault), k);
  }

  /** Two foreign writes and one racing consumer end in the conflict answer. */
  lemma ForeignWritesExhaustRetries(k: Key) returns (schedule: seq<Step>)
    requires SlashFree(k.tenant)
    ensures Foreign(schedule, k) == 2 && 0 in Exec(schedule).calls && Exec(schedule).calls[0].pc == Done(ClaimConflict(k))
  {
    hide Contested, Exec, Foreign;
    schedule := Opens(k);
    schedule := LosesToForeign(schedule, k, 0);
    schedule := LosesToForeign(schedule, k, 1);
    schedule := LosesToRival(schedule, k, 2);
  }

  /** One foreign write and one racing consumer lead to a third attempt. */
  lemma ForeignWriteCausesThirdAttempt(k: Key) returns (schedule: seq<Step>)
    requires SlashFree(k.tenant)
    ensures Foreign(schedule, k) == 1 && 0 in Exec(schedule).calls && ThirdAttempt(Exec(schedule).calls[0].pc, k)
  {
    hide Contested, Exec, Foreign;
    schedule := Opens(k);
    schedule := LosesToForeign(schedule, k, 0);
    schedule := LosesToRival(schedule, k, 1);
  }

  /** No run with at most n foreign writes to a claim answers "claim update conflict" for it, exactly for n below two. */
  lemma ConflictThreshold(k: Key, n: nat)
    requires SlashFree(k.tenant)
    ensures (forall schedule, c | Foreign(schedule, k) <= n && c in Exec(schedule).calls ::
               Exec(schedule).calls[c].pc != Done(ClaimConflict(k)))
            <==> n < 2
  {
    if n < 2 {
      forall schedule, c | Foreign(schedule, k) <= n && c in Exec(schedule).calls
        ensures Exec(schedule).calls[c].pc != Done(ClaimConflict(k))
      {
        ForeignWritesNeeded(schedule, c, k);
      }
    } else {
      var schedule := ForeignWritesExhaustRetries(k);
    }
  }

  /** No run with at most n foreign writes to a claim makes a third attempt at it, exactly for n zero. */
  lemma ThirdAttemptThreshold(k: Key, n: nat)
    requires SlashFree(k.tenant)
    ensures (forall schedule, c | Foreign(schedule, k) <= n && c in Exec(schedule).calls ::
               !ThirdAttempt(Exec(schedule).calls[c].pc, k))
            <==> n == 0
  {
    if n == 0 {
      forall schedule, c | Foreign(schedule, k) <= n && c in Exec(schedule).calls
        ensures !ThirdAttempt(Exec(schedule).calls[c].pc, k)
      {
        ForeignWritesNeeded(schedule, c, k);
      }
    } else {
      var schedule := ForeignWriteCausesThirdAttempt(k);
    }
  }

  // ---------------------------------------------------------------------------------------------
  // Who knows that it won
  // ---------------------------------------------------------------------------------------------

  /** Call `c` consumed the claim under `k`, whether or not it was told so. */
  predicate Spends(s: State, c: CallId, k: Key) {
    c in s.calls && s.calls[c].claimed == Some(k)
  }

  /** Step `j` committed the consumption of the claim under `k`. */
  predicate SpentAt(schedule: seq<Step>, j: nat, k: Key) {
    j < |schedule| && !ClaimUsed(Exec(schedule[..j]), k) && ClaimUsed(Exec(schedule[..j + 1]), k)
  }

  lemma WriteClaimSpends(s: State, c: CallId, fault: Fault, k: Key)
    requires c in s.calls && CallOk(s, s.calls[c]) && s.calls[c].pc.ClaimWrite?
    ensures s.calls[c].claimed.None?
    ensures var t := WriteClaim(s, c, fault);
            ClaimUsed(t, k) && !ClaimUsed(s, k) ==> Spends(t, c, k) && (t.calls[c].claimOk <==> fault != ReplyLost)
  {
  }

  lemma AdvanceSpends(s: State, c: CallId, fault: Fault, k: Key)
    requires c in s.calls && CallOk(s, s.calls[c])
    ensures var t := AdvanceCall(s, c, fault);
            && (s.calls[c].claimed.Some? ==> t.calls[c].claimed == s.calls[c].claimed && t.calls[c].claimOk == s.calls[c].claimOk)
            && (ClaimUsed(t, k) && !ClaimUsed(s, k) ==> Spends(t, c, k) && (t.calls[c].claimOk <==> fault != ReplyLost))
  {
    hide CallOk, WriteClaim, AfterClaimRead, AfterInviteRead;
    match s.calls[c].pc
    case ClaimWrite(_, _, _, _, _) => WriteClaimSpends(s, c, fault, k);
    case _ =>
  }

  lemma SpendersStay(s: State, step: Step, c: CallId, k: Key)
    requires CallsOk(s) && Spends(s, c, k)
    ensures Spends(Next(s, step), c, k) && Next(s, step).calls[c].claimOk == s.calls[c].claimOk
  {
    hide CallOk, AdvanceCall;
    match step
    case Advance(d, fault) =>
      if d == c {
        assert CallOk(s, s.calls[c]);
        AdvanceSpends(s, c, fault, k);
      }
    case MakeInvitation(_, _, _, _) =>
    case _ =>
  }

  /** Only the advance of a consumer spends a claim. */
  lemma StepSpends(s: State, step: Step, k: Key)
    requires CallsOk(s) && ClaimUsed(Next(s, step), k) && !ClaimUsed(s, k)
    ensures step.Advance? && Spends(Next(s, step), step.c, k)
    ensures Next(s, step).calls[step.c].claimOk <==> step.fault != ReplyLost
  {
    hide CallOk, AdvanceCall;
    if step.Advance? && step.c in s.calls {
      assert CallOk(s, s.calls[step.c]);
      AdvanceSpends(s, step.c, step.fault, k);
    }
  }

  /** A used claim was spent by some step. */
  lemma {:induction false} SpentBySomeStep(schedule: seq<Step>, k: Key) returns (j: nat)
    requires ClaimUsed(Exec(schedule), k)
    ensures SpentAt(schedule, j, k)
  {
    var n := |schedule| - 1;
    assert schedule[..n + 1] == schedule;
    if ClaimUsed(Exec(schedule[..n]), k) {
      j := SpentBySomeStep(schedule[..n], k);
      assert schedule[..n][..j] == schedule[..j] && schedule[..n][..j + 1] == schedule[..j + 1];
    } else {
      j := n;
    }
  }

  /** The call that step `j` advanced holds the claim ever after, and was told so unless that step lost its reply. */
  lemma {:induction false} SpenderOf(schedule: seq<Step>, j: nat, k: Key)
    requires SpentAt(schedule, j, k)
    ensures schedule[j].Advance? && Spends(Exec(schedule), schedule[j].c, k)
    ensures Exec(schedule).calls[schedule[j].c].claimOk <==> schedule[j].fault != ReplyLost
    decreases |schedule|
  {
    hide Next, Inv;
    var n := |schedule| - 1;
    assert schedule[..n + 1] == schedule;
    Invariant(schedule[..n]);
    CallsAreOk(Exec(schedule[..n]));
    if j == n {
      StepSpends(Exec(schedule[..n]), schedule[n], k);
    } else {
      assert schedule[..n][..j] == schedule[..j] && schedule[..n][..j + 1] == schedule[..j + 1];
      SpenderOf(schedule[..n], j, k);
      SpendersStay(Exec(schedule[..n]), schedule[n], schedule[j].c, k);
    }
  }

  /** In every run, some call won a used claim if and only if the step that committed its consumption did not lose its reply. */
  lemma WinnerIffReplyKept(schedule: seq<Step>, j: nat, k: Key)
    requires SpentAt(schedule, j, k)
    ensures schedule[j].Advance?
    ensures (exists w :: Wins(Exec(schedule), w, k)) <==> schedule[j].fault != ReplyLost
  {
    SpenderOf(schedule, j, k);
    var c := schedule[j].c;
    if Exec(schedule).calls[c].claimOk {
      assert Wins(Exec(schedule), c, k);
    } else {
      forall w ensures !Wins(Exec(schedule), w, k) {
        if w in Exec(schedule).calls {
          AtMostOneWinner(schedule, k, w, c);
        }
      }
    }
  }

  /** An "already used" answer means that exactly one call spent the claim, in exactly one step, and it won unless that step lost its reply. */
  lemma AlreadyUsedNamesOneWinner(schedule: seq<Step>, c: CallId, k: Key)
    requires c in Exec(schedule).calls && Exec(schedule).calls[c].pc == Done(ClaimRefused(k, M.AlreadyUsed))
    ensures exists j: nat :: SpentAt(schedule, j, k) && schedule[j].Advance?
                        && (forall d :: Spends(Exec(schedule), d, k) <==> d == schedule[j].c)
                        && (Wins(Exec(schedule), schedule[j].c, k) <==> schedule[j].fault != ReplyLost)
  {
    hide Next;
    var s := Exec(schedule);
    Invariant(schedule);
    assert CallOk(s, s.calls[c]);
    var j := SpentBySomeStep(schedule, k);
    SpenderOf(schedule, j, k);
    forall d ensures Spends(s, d, k) <==> d == schedule[j].c {
      if Spends(s, d, k) {
        AtMostOneWinner(schedule, k, d, schedule[j].c);
      }
    }
  }

  /** A reachable run that ends in an "already used" answer although no call ever won: the winner's reply was lost. */
  lemma LostReplyLeavesNoWinner(k: Key) returns (schedule: seq<Step>)
    requires SlashFree(k.tenant)
    ensures 1 in Exec(schedule).calls && Exec(schedule).calls[1].pc == Done(ClaimRefused(k, M.AlreadyUsed))
    ensures forall w :: !Wins(Exec(schedule), w, k)
  {
    hide Foreign;
    schedule := Opens(k);
    schedule := Then(schedule, Advance(0, NoFault), k);
    schedule := Then(schedule, Advance(0, ReplyLost), k);
    schedule := Then(schedule, Advance(1, NoFault), k);
  }
}
