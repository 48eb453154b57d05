/**
 Managed access over whole runs: Hub administrators edit grants and advertisements, the cluster's owner
 writes and withdraws approvals, Hub replicas assemble poll answers item by item, and the agent works
 through an answer write by write. All of them interleave.
 */
module GrantRuns {
  import opened Values
  import opened Grants

  /** The spec of a ManagedAccessGrant. `expiresAt` is absent when its text is no RFC 3339 instant; a rule that is no object reads as `None`. */
  datatype GrantSpec = GrantSpec(
    approved: bool, revoked: bool, expiresAt: Option<Time>, advertisementRef: string, peerRef: string,
    scope: string, namespaces: seq<string>, rules: seq<Option<Rule>>)

  datatype Grant = Grant(generation: nat, spec: GrantSpec)

  datatype Ad = Ad(publisherRef: string, protocol: string)

  /** The tenant of the Hub and the identity name of the polling agent. */
  datatype Site = Site(tenant: string, issuer: string)

  /** One `PendingGrants` call: the listed grants still to be looked at, and what it has gathered. */
  datatype Poll = Poll(remaining: map<string, Grant>, offers: seq<Instruction>)

  datatype Pc =
    | Idle
    | Working(queue: seq<Instruction>)
    | Retiring(retired: Instruction, left: set<Target>, queue: seq<Instruction>)
    | Applying(current: Instruction, next: nat, queue: seq<Instruction>)
    | Issuing(credential: Instruction, lifetime: int, requestedAt: Time, queue: seq<Instruction>)

  datatype Version = Version(name: string, generation: nat)

  datatype OwnerAct = OwnerAct(configMap: string, approval: Approval)

  datatype Publication = Publication(name: string, ad: Ad)

  /** `history`, `published` and `approved` remember every grant version, advertisement and approval there ever was; `issued` every stored credential. */
  datatype State = State(
    site: Site, clock: Time,
    grants: map<string, Grant>, history: map<Version, GrantSpec>,
    ads: map<string, Ad>, published: set<Publication>,
    approvals: map<string, Approval>, approved: set<OwnerAct>,
    polls: map<nat, Poll>, agent: Pc, cluster: Cluster, issued: seq<Store>)

  datatype Outcome = Succeeds | Fails | FailsUnnoticed

  datatype Step =
    | Tick(elapsed: nat)
    | EditGrant(name: string, spec: GrantSpec)
    | EditAd(name: string, ad: Ad)
    | RemoveAd(name: string)
    | WriteApproval(configMap: string, approval: Approval)
    | WithdrawApproval(configMap: string)
    | ListGrants(poll: nat)
    | InspectGrant(poll: nat, name: string, reachable: bool)
    | Answer(poll: nat)
    | Crash
    | Begin(reachable: bool)
    | DropOne(target: Target, succeeds: bool)
    | Retired(reported: bool)
    | PutOne(outcome: Outcome)
    | RequestToken
    | StoreCredential(outcome: Outcome, generation: int)
    | OwnerDeletes(target: Target)

  function Init(site: Site): State {
    State(site, 1, map[], map[], map[], {}, map[], {}, map[], Idle, map[], [])
  }

  // ---------------------------------------------------------------------------------------------
  // The Hub
  // ---------------------------------------------------------------------------------------------

  function Readable(rules: seq<Option<Rule>>): seq<Rule> {
    if rules == [] then []
    else
      var shorter := Readable(rules[..|rules| - 1]);
      match rules[|rules| - 1]
      case None => shorter
      case Some(rule) => shorter + [rule]
  }

  /** `rules` are the readable entries of `raw`, unchanged, in order and each once: entry `at[k]` is rule k, and no other is readable. */
  ghost predicate Selected(raw: seq<Option<Rule>>, rules: seq<Rule>, at: seq<nat>) {
    && |at| == |rules|
    && (forall k | 0 <= k < |at| :: at[k] < |raw| && raw[at[k]] == Some(rules[k]))
    && (forall j, k | 0 <= j < k < |at| :: at[j] < at[k])
    && (forall j | 0 <= j < |raw| && raw[j].Some? :: j in at)
  }

  ghost predicate Selects(raw: seq<Option<Rule>>, rules: seq<Rule>) {
    exists at :: Selected(raw, rules, at)
  }

  lemma {:induction false} ReadableSelects(raw: seq<Option<Rule>>) returns (at: seq<nat>)
    ensures Selected(raw, Readable(raw), at)
  {
    if raw == [] {
      at := [];
    } else {
      var n := |raw| - 1;
      at := ReadableSelects(raw[..n]);
      OneMoreSelected(raw, Readable(raw[..n]), at);
      hide Selected;
      if raw[n].Some? { at := at + [n]; }
    }
  }

  lemma OneMoreSelected(raw: seq<Option<Rule>>, rules: seq<Rule>, at: seq<nat>)
    requires raw != [] && Selected(raw[..|raw| - 1], rules, at)
    ensures var n := |raw| - 1;
            if raw[n].Some? then Selected(raw, rules + [raw[n].value], at + [n]) else Selected(raw, rules, at)
  {
    var n := |raw| - 1;
    assert forall j | 0 <= j < n :: raw[..n][j] == raw[j];
    if raw[n].Some? {
      var longer := at + [n];
      assert longer[|at|] == n;
      forall j | 0 <= j < |raw| && raw[j].Some? ensures j in longer {
        assert j < n ==> j in at;
      }
    }
  }

  /** What an agent is told about a grant. */
  function Offer(site: Site, name: string, g: Grant): Instruction
    requires g.spec.expiresAt.Some?
  {
    var spec := g.spec;
    Instruction(name, g.generation, spec.peerRef, spec.advertisementRef,
      if spec.scope == "" then "Namespaced" else spec.scope,
      spec.namespaces, Readable(spec.rules), spec.expiresAt.value, spec.revoked,
      "https://" + spec.advertisementRef + "-" + spec.peerRef + "." + site.tenant + ".svc.cluster.local:6443")
  }

  /** A write of the spec raises the generation exactly when it changes something. */
  function Edit(s: State, name: string, spec: GrantSpec): State {
    if name in s.grants && s.grants[name].spec == spec then s
    else
      var generation := if name in s.grants then s.grants[name].generation + 1 else 1;
      s.(grants := s.grants[name := Grant(generation, spec)], history := s.history[Version(name, generation) := spec])
  }

  /** One round of the loop over the listed grants; the advertisement is read only now. */
  function Inspect(s: State, poll: Poll, name: string, reachable: bool): Poll
    requires name in poll.remaining
  {
    var g := poll.remaining[name];
    var rest := poll.remaining - {name};
    if !g.spec.approved || g.spec.expiresAt.None? || g.spec.advertisementRef !in s.ads || !reachable then Poll(rest, poll.offers)
    else
      var ad := s.ads[g.spec.advertisementRef];
      if ad.publisherRef != s.site.issuer || ad.protocol != "kubernetes-api" then Poll(rest, poll.offers)
      else Poll(rest, poll.offers + [Offer(s.site, name, g)])
  }

  // ---------------------------------------------------------------------------------------------
  // The agent
  // ---------------------------------------------------------------------------------------------

  /** The first queued instruction: retire it, or check the owner's approval. An error ends the poll. */
  function BeginNext(s: State, reachable: bool): Pc
    requires s.agent.Working?
  {
    var queue := s.agent.queue;
    if queue == [] then Idle
    else
      var i, rest := queue[0], queue[1..];
      if Retirable(i, s.clock) then Retiring(i, Drops(i), rest)
      else if !reachable || !OwnerApproved(i, s.approvals) then Idle
      else Applying(i, 0, rest)
  }

  function Written(s: State): State
    requires s.agent.Applying? && s.agent.next < |Plan(s.agent.current)|
  {
    var put := Plan(s.agent.current)[s.agent.next];
    s.(cluster := s.cluster[put.target := put.rules])
  }

  function ApplyNext(s: State, outcome: Outcome): State
    requires s.agent.Applying? && s.agent.next < |Plan(s.agent.current)|
  {
    match outcome
    case Succeeds => Written(s).(agent := s.agent.(next := s.agent.next + 1))
    case Fails => s.(agent := Idle)
    case FailsUnnoticed => Written(s).(agent := Idle)
  }

  /** After the last write: the scope check, then the lifetime from a fresh reading of the clock. */
  function Request(s: State): Pc
    requires s.agent.Applying?
  {
    var i := s.agent.current;
    var lifetime := Lifetime(i.expiresAt, s.clock);
    if !Supported(i.scope) || lifetime.None? then Idle else Issuing(i, lifetime.value, s.clock, s.agent.queue)
  }

  function Issue(s: State, outcome: Outcome, generation: int): State
    requires s.agent.Issuing?
  {
    var i := s.agent.credential;
    var issued := s.issued + [Store(i.name, i.proxyURL, s.agent.lifetime, s.agent.requestedAt, generation)];
    match outcome
    case Succeeds => s.(issued := issued, agent := Working(s.agent.queue))
    case Fails => s.(agent := Idle)
    case FailsUnnoticed => s.(issued := issued, agent := Idle)
  }

  // ---------------------------------------------------------------------------------------------
  // Runs
  // ---------------------------------------------------------------------------------------------

  /** A step whose guard fails leaves the state as it is. */
  function Next(s: State, step: Step): State {
    match step
    case Tick(elapsed) => s.(clock := s.clock + elapsed)
    case EditGrant(name, spec) => Edit(s, name, spec)
    case EditAd(name, ad) => s.(ads := s.ads[name := ad], published := s.published + {Publication(name, ad)})
    case RemoveAd(name) => s.(ads := s.ads - {name})
    case WriteApproval(configMap, approval) =>
      s.(approvals := s.approvals[configMap := approval], approved := s.approved + {OwnerAct(configMap, approval)})
    case WithdrawApproval(configMap) => s.(approvals := s.approvals - {configMap})
    case ListGrants(poll) => if poll in s.polls then s else s.(polls := s.polls[poll := Poll(s.grants, [])])
    case InspectGrant(poll, name, reachable) =>
      if poll in s.polls && name in s.polls[poll].remaining
      then s.(polls := s.polls[poll := Inspect(s, s.polls[poll], name, reachable)])
      else s
    case Answer(poll) =>
      if poll in s.polls && s.polls[poll].remaining == map[] && s.agent.Idle?
      then s.(agent := Working(s.polls[poll].offers))
      else s
    case Crash => s.(agent := Idle)
    case Begin(reachable) => if s.agent.Working? then s.(agent := BeginNext(s, reachable)) else s
    case DropOne(target, succeeds) =>
      if s.agent.Retiring? && target in s.agent.left
      then s.(agent := s.agent.(left := s.agent.left - {target}), cluster := if succeeds then s.cluster - {target} else s.cluster)
      else s
    case Retired(reported) =>
      if s.agent.Retiring? && s.agent.left == {}
      then s.(agent := if reported then Working(s.agent.queue) else Idle)
      else s
    case PutOne(outcome) =>
      if s.agent.Applying? && s.agent.next < |Plan(s.agent.current)| then ApplyNext(s, outcome) else s
    case RequestToken =>
      if s.agent.Applying? && s.agent.next == |Plan(s.agent.current)| then s.(agent := Request(s)) else s
    case StoreCredential(outcome, generation) => if s.agent.Issuing? then Issue(s, outcome, generation) else s
    case OwnerDeletes(target) => s.(cluster := s.cluster - {target})
  }

  function Exec(site: Site, schedule: seq<Step>): State {
    if schedule == [] then Init(site) else Next(Exec(site, schedule[..|schedule| - 1]), schedule[|schedule| - 1])
  }

  // ---------------------------------------------------------------------------------------------
  // Provenance
  // ---------------------------------------------------------------------------------------------

  /** The Hub offered exactly the approved spec that generation `i.generation` of the grant had, for an advertisement of this cluster. */
  ghost predicate HubSanctioned(s: State, i: Instruction) {
    && Version(i.name, i.generation) in s.history
    && var spec := s.history[Version(i.name, i.generation)];
    && spec.approved && spec.expiresAt.Some?
    && i == Offer(s.site, i.name, Grant(i.generation, spec))
    && Publication(spec.advertisementRef, Ad(s.site.issuer, "kubernetes-api")) in s.published
  }

  /** The owner wrote an approval of that generation. */
  ghost predicate OwnerSanctioned(s: State, i: Instruction) {
    OwnerAct(ApprovalName(i.name), Approval(i.name, Decimal(i.generation), "true")) in s.approved
  }

  ghost predicate Sanctioned(s: State, i: Instruction) {
    HubSanctioned(s, i) && OwnerSanctioned(s, i)
  }

  ghost predicate GrantsOk(s: State) {
    && (forall n <- s.grants :: Version(n, s.grants[n].generation) in s.history
                             && s.history[Version(n, s.grants[n].generation)] == s.grants[n].spec)
    && (forall v <- s.history :: v.name in s.grants && v.generation <= s.grants[v.name].generation)
  }

  ghost predicate PollOk(s: State, p: Poll) {
    && (forall n <- p.remaining :: Version(n, p.remaining[n].generation) in s.history
                                && s.history[Version(n, p.remaining[n].generation)] == p.remaining[n].spec)
    && forall i <- p.offers :: HubSanctioned(s, i)
  }

  ghost predicate AgentOk(s: State) {
    match s.agent
    case Idle => true
    case Working(queue) => forall i <- queue :: HubSanctioned(s, i)
    case Retiring(_, _, queue) => forall i <- queue :: HubSanctioned(s, i)
    case Applying(i, next, queue) =>
      Sanctioned(s, i) && !i.revoked && next <= |Plan(i)| && forall j <- queue :: HubSanctioned(s, j)
    case Issuing(i, lifetime, at, queue) =>
      && Sanctioned(s, i) && !i.revoked && Supported(i.scope) && Lifetime(i.expiresAt, at) == Some(lifetime)
      && forall j <- queue :: HubSanctioned(s, j)
  }

  ghost predicate TargetOk(s: State, t: Target, rules: seq<Rule>) {
    exists i :: Sanctioned(s, i) && Within(i, Put(t, rules))
  }

  ghost predicate IssueOk(s: State, store: Store) {
    exists i :: Sanctioned(s, i) && Allowed(i, store)
  }

  ghost predicate Inv(s: State) {
    && GrantsOk(s)
    && (forall n <- s.ads :: Publication(n, s.ads[n]) in s.published)
    && (forall c <- s.approvals :: OwnerAct(c, s.approvals[c]) in s.approved)
    && (forall p <- s.polls :: PollOk(s, s.polls[p]))
    && AgentOk(s)
    && (forall t <- s.cluster :: TargetOk(s, t, s.cluster[t]))
    && forall k | 0 <= k < |s.issued| :: IssueOk(s, s.issued[k])
  }

  /** The histories only grow. */
  ghost predicate Grows(s: State, t: State) {
    && s.site == t.site
    && (forall v <- s.history :: v in t.history && t.history[v] == s.history[v])
    && s.published <= t.published && s.approved <= t.approved
  }

  lemma SanctionSurvives(s: State, t: State, i: Instruction)
    requires Grows(s, t)
    ensures HubSanctioned(s, i) ==> HubSanctioned(t, i)
    ensures Sanctioned(s, i) ==> Sanctioned(t, i)
  {
    hide Decimal;
  }

  lemma EffectsSurvive(s: State, t: State)
    requires Inv(s) && Grows(s, t)
    ensures forall x <- s.cluster :: TargetOk(t, x, s.cluster[x])
    ensures forall k | 0 <= k < |s.issued| :: IssueOk(t, s.issued[k])
  {
    hide Sanctioned, HubSanctioned, Within, Allowed, Grows;
    forall x | x in s.cluster ensures TargetOk(t, x, s.cluster[x]) {
      assert TargetOk(s, x, s.cluster[x]);
      var i :| Sanctioned(s, i) && Within(i, Put(x, s.cluster[x]));
      SanctionSurvives(s, t, i);
    }
    forall k | 0 <= k < |s.issued| ensures IssueOk(t, s.issued[k]) {
      assert IssueOk(s, s.issued[k]);
      var i :| Sanctioned(s, i) && Allowed(i, s.issued[k]);
      SanctionSurvives(s, t, i);
    }
  }

  lemma PollSurvives(s: State, t: State, p: Poll)
    requires PollOk(s, p) && Grows(s, t)
    ensures PollOk(t, p)
  {
    hide Sanctioned, HubSanctioned;
    forall i | i in p.offers ensures HubSanctioned(t, i) { SanctionSurvives(s, t, i); }
  }

  lemma AgentSurvives(s: State, t: State)
    requires AgentOk(s) && Grows(s, t) && t.agent == s.agent
    ensures AgentOk(t)
  {
    hide Sanctioned, HubSanctioned, Grows;
    forall i ensures HubSanctioned(s, i) ==> HubSanctioned(t, i) { SanctionSurvives(s, t, i); }
    forall i ensures Sanctioned(s, i) ==> Sanctioned(t, i) { SanctionSurvives(s, t, i); }
  }

  // ---------------------------------------------------------------------------------------------
  // One lemma per kind of step
  // ---------------------------------------------------------------------------------------------

  /** Steps outside the agent and the polls: what they leave alone stays in order. */
  lemma EnvironmentInv(s: State, t: State)
    requires Inv(s) && Grows(s, t) && GrantsOk(t)
    requires forall n <- t.ads :: Publication(n, t.ads[n]) in t.published
    requires forall c <- t.approvals :: OwnerAct(c, t.approvals[c]) in t.approved
    requires t.polls == s.polls && t.agent == s.agent && t.issued == s.issued
    requires forall x <- t.cluster :: x in s.cluster && t.cluster[x] == s.cluster[x]
    ensures Inv(t)
  {
    hide GrantsOk, AgentOk, TargetOk, IssueOk, PollOk, Grows;
    EffectsSurvive(s, t);
    AgentSurvives(s, t);
    forall p | p in t.polls ensures PollOk(t, t.polls[p]) { PollSurvives(s, t, s.polls[p]); }
  }

  lemma EditInv(s: State, name: string, spec: GrantSpec)
    requires Inv(s)
    ensures Grows(s, Edit(s, name, spec)) && Inv(Edit(s, name, spec))
  {
    EditGrows(s, name, spec);
    EnvironmentInv(s, Edit(s, name, spec)) by { hide Edit; EditKeeps(s, name, spec); }
  }

  lemma EditGrows(s: State, name: string, spec: GrantSpec)
    requires GrantsOk(s)
    ensures Grows(s, Edit(s, name, spec)) && GrantsOk(Edit(s, name, spec))
  {
    var t := Edit(s, name, spec);
    if t != s {
      var v := Version(name, t.grants[name].generation);
      assert v !in s.history;
      assert t.history == s.history[v := spec];
      forall n | n in t.grants ensures Version(n, t.grants[n].generation) in t.history
        && t.history[Version(n, t.grants[n].generation)] == t.grants[n].spec {
        assert n != name ==> t.grants[n] == s.grants[n];
      }
    }
  }

  lemma EditKeeps(s: State, name: string, spec: GrantSpec)
    ensures var t := Edit(s, name, spec); t == s.(grants := t.grants, history := t.history)
  {
  }

  /** A step of a poll adds only offers that the listed version and the advertisement just read justify. */
  lemma InspectOk(s: State, p: Poll, name: string, reachable: bool)
    requires PollOk(s, p) && name in p.remaining
    requires forall n <- s.ads :: Publication(n, s.ads[n]) in s.published
    ensures PollOk(s, Inspect(s, p, name, reachable))
  {
    hide Readable;
  }

  lemma PollInv(s: State, poll: nat, p: Poll)
    requires Inv(s) && PollOk(s, p)
    ensures var t := s.(polls := s.polls[poll := p]); Grows(s, t) && Inv(t)
  {
    hide AgentOk, TargetOk, IssueOk, PollOk;
    var t := s.(polls := s.polls[poll := p]);
    assert GrantsOk(t);
    EffectsSurvive(s, t);
    AgentSurvives(s, t);
    PollSurvives(s, t, p);
    forall q | q in s.polls ensures PollOk(t, s.polls[q]) { PollSurvives(s, t, s.polls[q]); }
  }

  lemma ListInv(s: State, poll: nat)
    requires Inv(s)
    ensures Grows(s, Next(s, ListGrants(poll))) && Inv(Next(s, ListGrants(poll)))
  {
    hide AgentOk, TargetOk, IssueOk, HubSanctioned;
    if poll !in s.polls {
      PollInv(s, poll, Poll(s.grants, []));
    }
  }

  lemma InspectInv(s: State, poll: nat, name: string, reachable: bool)
    requires Inv(s)
    ensures Grows(s, Next(s, InspectGrant(poll, name, reachable))) && Inv(Next(s, InspectGrant(poll, name, reachable)))
  {
    hide AgentOk, TargetOk, IssueOk, PollOk, Inspect, GrantsOk;
    if poll in s.polls && name in s.polls[poll].remaining {
      InspectOk(s, s.polls[poll], name, reachable);
      PollInv(s, poll, Inspect(s, s.polls[poll], name, reachable));
    }
  }

  /** A step of the agent that writes nothing. */
  lemma AgentMoves(s: State, pc: Pc)
    requires Inv(s) && AgentOk(s.(agent := pc))
    ensures Grows(s, s.(agent := pc)) && Inv(s.(agent := pc))
  {
    hide AgentOk, TargetOk, IssueOk, PollOk;
    var t := s.(agent := pc);
    assert GrantsOk(t);
    EffectsSurvive(s, t);
    forall p | p in t.polls ensures PollOk(t, t.polls[p]) { PollSurvives(s, t, s.polls[p]); }
  }

  lemma BeginOk(s: State, reachable: bool)
    requires Inv(s) && s.agent.Working?
    ensures AgentOk(s.(agent := BeginNext(s, reachable)))
  {
    hide HubSanctioned, Plan, Drops, Decimal;
    var t := s.(agent := BeginNext(s, reachable));
    forall i | i in s.agent.queue ensures HubSanctioned(t, i) { SanctionSurvives(s, t, i); }
  }

  lemma RequestOk(s: State)
    requires AgentOk(s) && s.agent.Applying?
    ensures AgentOk(s.(agent := Request(s)))
  {
    hide HubSanctioned, OwnerSanctioned, Plan, Decimal;
    var t := s.(agent := Request(s));
    forall i | HubSanctioned(s, i) ensures HubSanctioned(t, i) { SanctionSurvives(s, t, i); }
    forall i | Sanctioned(s, i) ensures Sanctioned(t, i) { SanctionSurvives(s, t, i); }
  }

  /** The agent's cluster and credentials change; the histories do not. */
  lemma EffectInv(s: State, t: State)
    requires Inv(s) && t == s.(agent := t.agent, cluster := t.cluster, issued := t.issued)
    requires AgentOk(t)
    requires forall x <- t.cluster :: (x in s.cluster && t.cluster[x] == s.cluster[x]) || TargetOk(t, x, t.cluster[x])
    requires forall k | 0 <= k < |t.issued| :: (k < |s.issued| && t.issued[k] == s.issued[k]) || IssueOk(t, t.issued[k])
    ensures Grows(s, t) && Inv(t)
  {
    hide AgentOk, TargetOk, IssueOk, PollOk;
    assert GrantsOk(t);
    EffectsSurvive(s, t);
    forall p | p in t.polls ensures PollOk(t, t.polls[p]) { PollSurvives(s, t, s.polls[p]); }
  }

  lemma PutInv(s: State, outcome: Outcome)
    requires Inv(s) && s.agent.Applying? && s.agent.next < |Plan(s.agent.current)|
    ensures Grows(s, ApplyNext(s, outcome)) && Inv(ApplyNext(s, outcome))
  {
    hide HubSanctioned, OwnerSanctioned, Plan, Decimal, Within, GrantsOk, PollOk, IssueOk;
    var t := ApplyNext(s, outcome);
    var i, k := s.agent.current, s.agent.next;
    forall j ensures HubSanctioned(s, j) ==> HubSanctioned(t, j) { SanctionSurvives(s, t, j); }
    SanctionSurvives(s, t, i);
    PlanWithin(i, k);
    var put := Plan(i)[k];
    assert put == Put(put.target, put.rules);
    assert TargetOk(t, put.target, put.rules);
    EffectInv(s, t);
  }

  lemma IssueInv(s: State, outcome: Outcome, generation: int)
    requires Inv(s) && s.agent.Issuing?
    ensures Grows(s, Issue(s, outcome, generation)) && Inv(Issue(s, outcome, generation))
  {
    hide HubSanctioned, OwnerSanctioned, Plan, Decimal, Within, GrantsOk, PollOk, TargetOk;
    var t := Issue(s, outcome, generation);
    var i := s.agent.credential;
    forall j ensures HubSanctioned(s, j) ==> HubSanctioned(t, j) { SanctionSurvives(s, t, j); }
    SanctionSurvives(s, t, i);
    assert IssueOk(t, Store(i.name, i.proxyURL, s.agent.lifetime, s.agent.requestedAt, generation));
    EffectInv(s, t);
  }

  lemma DropInv(s: State, step: Step)
    requires Inv(s) && step.DropOne?
    ensures Grows(s, Next(s, step)) && Inv(Next(s, step))
  {
    hide HubSanctioned, OwnerSanctioned, Plan, Decimal, Within, GrantsOk, PollOk, TargetOk, IssueOk;
    var t := Next(s, step);
    if t != s {
      forall j | j in s.agent.queue ensures HubSanctioned(t, j) { SanctionSurvives(s, t, j); }
      EffectInv(s, t);
    }
  }

  lemma AgentInv(s: State, step: Step)
    requires Inv(s) && (step.Answer? || step.Crash? || step.Begin? || step.Retired? || step.RequestToken?)
    ensures Grows(s, Next(s, step)) && Inv(Next(s, step))
  {
    hide HubSanctioned, OwnerSanctioned, Plan, Decimal, GrantsOk, TargetOk, IssueOk, BeginNext, Request;
    var t := Next(s, step);
    if t != s {
      forall i ensures HubSanctioned(s, i) ==> HubSanctioned(t, i) { SanctionSurvives(s, t, i); }
      if step.Begin? { BeginOk(s, step.reachable); }
      if step.RequestToken? { RequestOk(s); }
      AgentMoves(s, t.agent);
    }
  }

  lemma NextInv(s: State, step: Step)
    requires Inv(s)
    ensures Grows(s, Next(s, step)) && Inv(Next(s, step))
  {
    hide Inv, Edit, ApplyNext, Issue, BeginNext, Request, Inspect, Plan;
    if step.EditGrant? { EditInv(s, step.name, step.spec); }
    else if step.ListGrants? { ListInv(s, step.poll); }
    else if step.InspectGrant? { InspectInv(s, step.poll, step.name, step.reachable); }
    else if step.PutOne? {
      if s.agent.Applying? && s.agent.next < |Plan(s.agent.current)| { PutInv(s, step.outcome); }
    }
    else if step.StoreCredential? {
      if s.agent.Issuing? { IssueInv(s, step.outcome, step.generation); }
    }
    else if step.DropOne? { DropInv(s, step); }
    else if step.Answer? || step.Crash? || step.Begin? || step.Retired? || step.RequestToken? { AgentInv(s, step); }
    else { OutsideInv(s, step); }
  }

  lemma OutsideInv(s: State, step: Step)
    requires Inv(s)
    requires step.Tick? || step.EditAd? || step.RemoveAd? || step.WriteApproval? || step.WithdrawApproval? || step.OwnerDeletes?
    ensures Grows(s, Next(s, step)) && Inv(Next(s, step))
  {
    hide AgentOk, PollOk, TargetOk, IssueOk;
    var t := Next(s, step);
    assert t == s.(clock := t.clock, ads := t.ads, published := t.published, approvals := t.approvals, approved := t.approved, cluster := t.cluster);
    assert GrantsOk(t);
    hide Next, GrantsOk;
    EnvironmentInv(s, t);
  }

  lemma {:induction false} Invariant(site: Site, schedule: seq<Step>)
    ensures Inv(Exec(site, schedule)) && Exec(site, schedule).site == site
  {
    if schedule != [] {
      Invariant(site, schedule[..|schedule| - 1]);
      NextInv(Exec(site, schedule[..|schedule| - 1]), schedule[|schedule| - 1]);
    }
  }

  // ---------------------------------------------------------------------------------------------
  // Theorems
  // ---------------------------------------------------------------------------------------------

  /** Generation `g` of a grant was Hub-approved under spec `spec`, for this cluster's Kubernetes API, and the owner approved exactly `g`. */
  ghost predicate DoublyApproved(s: State, name: string, g: nat, spec: GrantSpec) {
    && Version(name, g) in s.history && s.history[Version(name, g)] == spec && spec.approved
    && Publication(spec.advertisementRef, Ad(s.site.issuer, "kubernetes-api")) in s.published
    && OwnerAct(ApprovalName(name), Approval(name, Decimal(g), "true")) in s.approved
  }

  /** Every stored credential stems from a doubly approved generation that is not revoked and outlives the requested lifetime. */
  lemma CredentialsAreDoublyApproved(site: Site, schedule: seq<Step>, k: nat)
    requires k < |Exec(site, schedule).issued|
    ensures var s, store := Exec(site, schedule), Exec(site, schedule).issued[k];
            exists g: nat, spec: GrantSpec ::
              && DoublyApproved(s, store.grantRef, g, spec)
              && !spec.revoked && spec.expiresAt.Some?
              && MIN_LIFETIME <= store.lifetime <= MAX_LIFETIME
              && store.requestedAt + store.lifetime * SECOND <= spec.expiresAt.value
              && store.server == "https://" + spec.advertisementRef + "-" + spec.peerRef + "." + site.tenant + ".svc.cluster.local:6443"
  {
    hide Decimal;
    var s := Exec(site, schedule);
    Invariant(site, schedule);
    assert IssueOk(s, s.issued[k]);
    var i :| Sanctioned(s, i) && Allowed(i, s.issued[k]);
    LifetimeBounds(i.expiresAt, s.issued[k].requestedAt);
    assert DoublyApproved(s, i.name, i.generation, s.history[Version(i.name, i.generation)]);
  }

  /** Every role in the cluster carries exactly the rules of a doubly approved generation of that scope, in a namespace it names. */
  lemma RolesAreDoublyApproved(site: Site, schedule: seq<Step>, t: Target)
    requires t in Exec(site, schedule).cluster && (t.Role? || t.ClusterRole?)
    ensures var s := Exec(site, schedule);
            exists name: string, g: nat, spec: GrantSpec ::
              && DoublyApproved(s, name, g, spec)
              && t.name == GrantResource(name) && Selects(spec.rules, s.cluster[t])
              && (t.Role? ==> Namespaced(spec.scope) && t.namespace in spec.namespaces)
              && (t.ClusterRole? ==> spec.scope == "Cluster")
  {
    hide Decimal, GrantResource, Exec, Selects, Offer;
    var s := Exec(site, schedule);
    Invariant(site, schedule);
    assert TargetOk(s, t, s.cluster[t]);
    var i :| Sanctioned(s, i) && Within(i, Put(t, s.cluster[t]));
    SanctionedIsDouble(s, i);
    hide Sanctioned, DoublyApproved;
  }

  lemma SanctionedIsDouble(s: State, i: Instruction)
    requires Sanctioned(s, i)
    ensures var spec := s.history[Version(i.name, i.generation)];
            && DoublyApproved(s, i.name, i.generation, spec) && Selects(spec.rules, i.rules) && i.namespaces == spec.namespaces
            && (Namespaced(i.scope) ==> Namespaced(spec.scope)) && (i.scope == "Cluster" ==> spec.scope == "Cluster")
  {
    hide Decimal;
    var at := ReadableSelects(s.history[Version(i.name, i.generation)].rules);
  }

  /** An approval names one generation, and that generation has one spec, now and in every continuation. */
  lemma {:induction false} ApprovalNamesOneSpec(site: Site, schedule: seq<Step>, more: seq<Step>, name: string, g: nat, h: nat, a: GrantSpec, b: GrantSpec)
    requires DoublyApproved(Exec(site, schedule), name, g, a) && DoublyApproved(Exec(site, schedule + more), name, h, b)
    requires Decimal(g) == Decimal(h)
    ensures g == h && a == b
  {
    DecimalInjective(g, h);
    HistoryStays(site, schedule, more, Version(name, g));
  }

  lemma {:induction false} HistoryStays(site: Site, schedule: seq<Step>, more: seq<Step>, v: Version)
    requires v in Exec(site, schedule).history
    ensures v in Exec(site, schedule + more).history
    ensures Exec(site, schedule + more).history[v] == Exec(site, schedule).history[v]
    decreases |more|
  {
    if more == [] {
      assert schedule + more == schedule;
    } else {
      var k := |more| - 1;
      HistoryStays(site, schedule, more[..k], v);
      Invariant(site, schedule + more[..k]);
      NextInv(Exec(site, schedule + more[..k]), more[k]);
      assert (schedule + more)[..|schedule + more| - 1] == schedule + more[..k];
    }
  }
}
