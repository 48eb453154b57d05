/**
 What one poll and one instruction do: which grants a poll offers and in which words, and what an agent that no one
 interrupts makes of an instruction.
 */
module GrantWork {
  import opened Values
  import opened Grants
  import opened GrantRuns

  // ---------------------------------------------------------------------------------------------
  // Generations and failures
  // ---------------------------------------------------------------------------------------------

  ghost predicate VersionsCount(s: State) {
    forall v: Version :: v in s.history <==> v.name in s.grants && 1 <= v.generation <= s.grants[v.name].generation
  }

  lemma VersionsCountStep(s: State, step: Step)
    requires VersionsCount(s)
    ensures VersionsCount(Next(s, step))
  {
    if step.EditGrant? {
      EditCounts(s, step.name, step.spec);
    } else {
      hide Next;
      OnlyEditsCount(s, step);
    }
  }

  lemma EditCounts(s: State, name: string, spec: GrantSpec)
    requires VersionsCount(s)
    ensures VersionsCount(Edit(s, name, spec))
  {
  }

  lemma OnlyEditsCount(s: State, step: Step)
    requires !step.EditGrant?
    ensures Next(s, step).history == s.history && Next(s, step).grants == s.grants
  {
    hide Inspect, BeginNext, ApplyNext, Request, Issue, Plan;
    if step.PutOne? && s.agent.Applying? && s.agent.next < |Plan(s.agent.current)| { WriteFails(s, step.outcome); }
    if step.StoreCredential? && s.agent.Issuing? { StoreFails(s, step.outcome, step.generation); }
  }

  lemma WriteFails(s: State, outcome: Outcome)
    requires s.agent.Applying? && s.agent.next < |Plan(s.agent.current)|
    ensures var t := ApplyNext(s, outcome);
            && t == s.(agent := t.agent, cluster := t.cluster)
            && (outcome != Succeeds ==> t.agent == Idle)
            && (t.cluster == s.cluster || t.cluster == Apply(s.cluster, [Plan(s.agent.current)[s.agent.next]]))
            && (outcome == Fails ==> t.cluster == s.cluster)
  {
    hide Plan;
    var put := Plan(s.agent.current)[s.agent.next];
    ApplyOne(s.cluster, [], put);
    assert [] + [put] == [put];
  }

  lemma StoreFails(s: State, outcome: Outcome, generation: int)
    requires s.agent.Issuing?
    ensures var t := Issue(s, outcome, generation);
            && t == s.(agent := t.agent, issued := t.issued)
            && (outcome != Succeeds ==> t.agent == Idle) && (outcome == Fails ==> t.issued == s.issued)
            && (t.issued == s.issued || |t.issued| == |s.issued| + 1)
  {
  }

  /** A grant's generations count its specs: the recorded ones are those from 1 to the current one, none left out. */
  lemma {:induction false} GenerationsCountSpecs(site: Site, schedule: seq<Step>, name: string, g: nat)
    ensures var s := Exec(site, schedule);
            Version(name, g) in s.history <==> name in s.grants && 1 <= g <= s.grants[name].generation
  {
    VersionsCountAlways(site, schedule);
  }

  lemma {:induction false} VersionsCountAlways(site: Site, schedule: seq<Step>)
    ensures VersionsCount(Exec(site, schedule))
  {
    hide Next;
    if schedule != [] {
      VersionsCountAlways(site, schedule[..|schedule| - 1]);
      VersionsCountStep(Exec(site, schedule[..|schedule| - 1]), schedule[|schedule| - 1]);
    }
  }

  /** In every run an edit takes effect at once, raises the generation exactly when it changes the spec, and leaves every other grant and version alone. */
  lemma EditsTakeEffect(site: Site, schedule: seq<Step>, name: string, spec: GrantSpec)
    ensures var s, t := Exec(site, schedule), Exec(site, schedule + [EditGrant(name, spec)]);
            && name in t.grants && t.grants[name].spec == spec
            && t.grants == s.grants[name := t.grants[name]]
            && t.history == s.history[Version(name, t.grants[name].generation) := spec]
            && t.grants[name].generation ==
               (if name !in s.grants then 1 else s.grants[name].generation + if s.grants[name].spec == spec then 0 else 1)
  {
    var s := Exec(site, schedule);
    assert (schedule + [EditGrant(name, spec)])[..|schedule|] == schedule;
    Invariant(site, schedule);
    if name in s.grants { RecordedSpec(s, name); }
    EditIsStep(s, name, spec);
    hide Inv, Next;
  }

  lemma EditIsStep(s: State, name: string, spec: GrantSpec)
    ensures Next(s, EditGrant(name, spec)) == Edit(s, name, spec)
  {
    hide Edit;
  }

  lemma RecordedSpec(s: State, name: string)
    requires Inv(s) && name in s.grants
    ensures Version(name, s.grants[name].generation) in s.history
    ensures s.history[Version(name, s.grants[name].generation)] == s.grants[name].spec
  {
  }

  /** The agent's step fails: a crash, an unreadable approval, a refused revocation, write, token or store, or a lost reply. */
  predicate FailsAt(s: State, step: Step) {
    || step.Crash?
    || (step == Begin(false) && s.agent.Working? && (s.agent.queue != [] ==> !Retirable(s.agent.queue[0], s.clock)))
    || (step == Retired(false) && s.agent.Retiring? && s.agent.left == {})
    || (step.PutOne? && step.outcome != Succeeds && s.agent.Applying? && s.agent.next < |Plan(s.agent.current)|)
    || (step.StoreCredential? && step.outcome != Succeeds && s.agent.Issuing?)
  }

  /** Every failure ends the poll: nothing of the queue is worked on before the next answer. At most the write or store in question took effect. */
  lemma FailuresEndPolls(s: State, step: Step)
    requires FailsAt(s, step)
    ensures var t := Next(s, step);
            && t == s.(agent := Idle, cluster := t.cluster, issued := t.issued)
            && (t.cluster == s.cluster || (step == PutOne(FailsUnnoticed) && t.cluster == Apply(s.cluster, [Plan(s.agent.current)[s.agent.next]])))
            && (t.issued == s.issued || (step.StoreCredential? && step.outcome == FailsUnnoticed && |t.issued| == |s.issued| + 1))
  {
    hide Inspect, ApplyNext, Request, Issue, Plan;
    if step.PutOne? { WriteFails(s, step.outcome); }
    if step.StoreCredential? { StoreFails(s, step.outcome, step.generation); }
  }

  /** An answer is taken when every listed grant has been looked at and the agent is free, and then works through all it offers, in order. */
  lemma AnswersAreTaken(s: State, poll: nat)
    requires poll in s.polls
    ensures Next(s, Answer(poll)) ==
            if s.polls[poll].remaining == map[] && s.agent == Idle then s.(agent := Working(s.polls[poll].offers)) else s
  {
  }

  // ---------------------------------------------------------------------------------------------
  // Offers
  // ---------------------------------------------------------------------------------------------

  /** Instruction `i` says of the grant `name` in generation `g` what its spec says. */
  ghost predicate Tells(site: Site, name: string, g: nat, spec: GrantSpec, i: Instruction) {
    && i.name == name && i.generation == g
    && i.peerRef == spec.peerRef && i.advertisementRef == spec.advertisementRef
    && i.scope == (if spec.scope == "" then "Namespaced" else spec.scope)
    && i.namespaces == spec.namespaces && Selects(spec.rules, i.rules)
    && spec.expiresAt == Some(i.expiresAt) && i.revoked == spec.revoked
    && i.proxyURL == "https://" + spec.advertisementRef + "-" + spec.peerRef + "." + site.tenant + ".svc.cluster.local:6443"
  }

  lemma OfferTells(site: Site, name: string, g: Grant)
    requires g.spec.expiresAt.Some?
    ensures Tells(site, name, g.generation, g.spec, Offer(site, name, g))
  {
    var at := ReadableSelects(g.spec.rules);
  }

  /** In every run, whatever a poll has gathered is the word of a recorded, approved version of its grant for a Kubernetes API advertisement of this cluster. */
  lemma OffersAreExact(site: Site, schedule: seq<Step>, poll: nat, i: Instruction)
    requires poll in Exec(site, schedule).polls && i in Exec(site, schedule).polls[poll].offers
    ensures var s, v := Exec(site, schedule), Version(i.name, i.generation);
            && v in s.history && s.history[v].approved && Tells(site, i.name, i.generation, s.history[v], i)
            && Publication(i.advertisementRef, Ad(site.issuer, "kubernetes-api")) in s.published
  {
    hide Offer, Tells;
    var s := Exec(site, schedule);
    Invariant(site, schedule);
    assert PollOk(s, s.polls[poll]);
    assert HubSanctioned(s, i);
    OfferTells(site, i.name, Grant(i.generation, s.history[Version(i.name, i.generation)]));
    OfferNames(site, i.name, Grant(i.generation, s.history[Version(i.name, i.generation)]));
  }

  lemma OfferNames(site: Site, name: string, g: Grant)
    requires g.spec.expiresAt.Some?
    ensures Offer(site, name, g).advertisementRef == g.spec.advertisementRef
  {
  }

  /** A poll looks at every grant there is when it begins. */
  lemma PollsBeginWithAll(s: State, poll: nat)
    requires poll !in s.polls
    ensures Next(s, ListGrants(poll)) == s.(polls := s.polls[poll := Poll(s.grants, [])])
  {
  }

  /** The grant is to be offered: approved, with a readable expiry, for an advertisement that is there now, is this cluster's and speaks the Kubernetes API. */
  predicate Due(s: State, g: Grant) {
    && g.spec.approved && g.spec.expiresAt.Some?
    && g.spec.advertisementRef in s.ads && s.ads[g.spec.advertisementRef] == Ad(s.site.issuer, "kubernetes-api")
  }

  /** Each round of a poll takes one listed grant off and offers it, in its own words, exactly when it is due and its advertisement could be read. */
  lemma PollOffersExactlyTheDue(s: State, poll: nat, name: string, reachable: bool)
    requires poll in s.polls && name in s.polls[poll].remaining
    ensures var p, t := s.polls[poll], Next(s, InspectGrant(poll, name, reachable));
            && t == s.(polls := s.polls[poll := t.polls[poll]])
            && t.polls[poll].remaining == p.remaining - {name}
            && if Due(s, p.remaining[name]) && reachable then
                 && |t.polls[poll].offers| == |p.offers| + 1 && t.polls[poll].offers[..|p.offers|] == p.offers
                 && Tells(s.site, name, p.remaining[name].generation, p.remaining[name].spec, t.polls[poll].offers[|p.offers|])
               else t.polls[poll].offers == p.offers
  {
    hide Tells, Offer;
    if Due(s, s.polls[poll].remaining[name]) {
      OfferTells(s.site, name, s.polls[poll].remaining[name]);
    }
  }

  // ---------------------------------------------------------------------------------------------
  // An instruction alone
  // ---------------------------------------------------------------------------------------------

  /** `n` writes in a row, all successful. */
  function Puts(s: State, n: nat): State {
    if n == 0 then s else Next(Puts(s, n - 1), PutOne(Succeeds))
  }

  lemma {:induction false} PutsAlone(s: State, i: Instruction, rest: seq<Instruction>, n: nat)
    requires s.agent == Applying(i, 0, rest) && n <= |Plan(i)|
    ensures Puts(s, n) == s.(cluster := Apply(s.cluster, Plan(i)[..n]), agent := Applying(i, n, rest))
  {
    hide Plan;
    if n > 0 {
      PutsAlone(s, i, rest, n - 1);
      assert Plan(i)[..n][..n - 1] == Plan(i)[..n - 1];
    }
  }

  /**
   An owner-approved instruction that is neither revoked nor expired: the agent writes exactly its plan, and with a
   supported scope and ten minutes left stores a credential for its grant and server with the lifetime of that moment;
   otherwise it stops after the writes. Without the owner's approval it stops at once.
   */
  lemma ApprovedAlone(s: State, i: Instruction, rest: seq<Instruction>, generation: int)
    requires s.agent == Working([i] + rest) && !i.revoked && s.clock < i.expiresAt
    ensures var begun := Next(s, Begin(true));
            if !OwnerApproved(i, s.approvals) then begun == s.(agent := Idle)
            else
              var t := Next(Next(Puts(begun, |Plan(i)|), RequestToken), StoreCredential(Succeeds, generation));
              var written := Apply(s.cluster, Plan(i));
              var left := i.expiresAt - s.clock;
              if Supported(i.scope) && left >= 600 * SECOND then
                t == s.(cluster := written, agent := Working(rest),
                        issued := s.issued + [Store(i.name, i.proxyURL, if left >= 3600 * SECOND then 3600 else left / SECOND, s.clock, generation)])
              else t == s.(cluster := written, agent := Idle)
  {
    hide Next, Plan, Apply, OwnerApproved;
    BeginAlone(s, i, rest);
    var begun := Next(s, Begin(true));
    if OwnerApproved(i, s.approvals) {
      PutsAlone(begun, i, rest, |Plan(i)|);
      assert Plan(i)[..|Plan(i)|] == Plan(i);
      TokenAlone(Puts(begun, |Plan(i)|), i, rest, generation);
    }
  }

  lemma BeginAlone(s: State, i: Instruction, rest: seq<Instruction>)
    requires s.agent == Working([i] + rest) && !i.revoked && s.clock < i.expiresAt
    ensures Next(s, Begin(true)) == s.(agent := if OwnerApproved(i, s.approvals) then Applying(i, 0, rest) else Idle)
  {
    hide OwnerApproved;
    assert ([i] + rest)[1..] == rest;
  }

  lemma TokenAlone(s: State, i: Instruction, rest: seq<Instruction>, generation: int)
    requires s.agent == Applying(i, |Plan(i)|, rest)
    ensures var left := i.expiresAt - s.clock;
            Next(Next(s, RequestToken), StoreCredential(Succeeds, generation)) ==
            if Supported(i.scope) && left >= 600 * SECOND then
              s.(agent := Working(rest),
                 issued := s.issued + [Store(i.name, i.proxyURL, if left >= 3600 * SECOND then 3600 else left / SECOND, s.clock, generation)])
            else s.(agent := Idle)
  {
    hide Plan, Supported;
    LifetimeBounds(i.expiresAt, s.clock);
  }

  /** The deletions of `targets`, in some order and all successful. */
  predicate DeletedAll(s: State, targets: set<Target>, t: State)
    requires s.agent.Retiring?
  {
    t == s.(cluster := s.cluster - targets, agent := s.agent.(left := s.agent.left - targets))
  }

  lemma DeleteOne(s: State, target: Target, rest: set<Target>, t: State)
    requires s.agent.Retiring? && target in s.agent.left && target !in rest
    requires DeletedAll(Next(s, DropOne(target, true)), rest, t)
    ensures DeletedAll(s, rest + {target}, t)
  {
    assert s.cluster - {target} - rest == s.cluster - (rest + {target});
    assert s.agent.left - {target} - rest == s.agent.left - (rest + {target});
  }

  lemma {:induction false} DeletesAlone(s: State, targets: set<Target>) returns (schedule: seq<Step>, t: State)
    requires s.agent.Retiring? && targets <= s.agent.left
    ensures t == Run(s, schedule) && DeletedAll(s, targets, t)
    decreases targets
  {
    if targets == {} {
      schedule, t := [], s;
      assert s.cluster - {} == s.cluster && s.agent.left - {} == s.agent.left;
    } else {
      var target :| target in targets;
      var steps;
      steps, t := DeletesAlone(Next(s, DropOne(target, true)), targets - {target});
      schedule := [DropOne(target, true)] + steps;
      assert schedule[1..] == steps;
      DeleteOne(s, target, targets - {target}, t);
      assert targets - {target} + {target} == targets;
    }
  }

  function Run(s: State, steps: seq<Step>): State
    decreases |steps|
  {
    if steps == [] then s else Run(Next(s, steps[0]), steps[1..])
  }

  /** A revoked or expired instruction: the agent turns to exactly the objects it names, and once they are deleted goes on with the next. */
  lemma RetiredAlone(s: State, i: Instruction, rest: seq<Instruction>, reachable: bool)
    requires s.agent == Working([i] + rest) && (i.revoked || !(s.clock < i.expiresAt))
    ensures exists steps :: Next(Run(Next(s, Begin(reachable)), steps), Retired(true)) == s.(cluster := s.cluster - Drops(i), agent := Working(rest))
  {
    hide Drops;
    assert ([i] + rest)[1..] == rest;
    var begun := Next(s, Begin(reachable));
    assert begun == s.(agent := Retiring(i, Drops(i), rest));
    var steps, t := DeletesAlone(begun, Drops(i));
    assert Drops(i) - Drops(i) == {};
  }
}
