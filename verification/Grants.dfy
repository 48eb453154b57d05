/**
 Managed access on the agent's side: the gate in front of a grant instruction, the RBAC objects it leads
 to, the token lifetime, and the broker messages that borrow the next control sequence number.
 */
module Grants {
  import opened Values
  import opened ObjectNames

  const TWO64: int := 0x1_0000_0000_0000_0000

  datatype Rule = Rule(apiGroups: seq<string>, resources: seq<string>, verbs: seq<string>)

  datatype Instruction = Instruction(
    name: string, generation: nat, peerRef: string, advertisementRef: string, scope: string,
    namespaces: seq<string>, rules: seq<Rule>, expiresAt: Time, revoked: bool, proxyURL: string)

  /** The data of the owner's approval ConfigMap. */
  datatype Approval = Approval(grantRef: string, generation: string, approved: string)

  // ---------------------------------------------------------------------------------------------
  // The owner's approval
  // ---------------------------------------------------------------------------------------------

  const DIGITS: string := "0123456789"

  /** `strconv.FormatInt(n, 10)`. */
  function Decimal(n: nat): (s: string)
    ensures s != ""
  {
    if n < 10 then [DIGITS[n]] else Decimal(n / 10) + [DIGITS[n % 10]]
  }

  /** Generations are told apart by their text. */
  lemma {:induction false} DecimalInjective(m: nat, n: nat)
    requires Decimal(m) == Decimal(n)
    ensures m == n
    decreases m
  {
    var s, t := Decimal(m), Decimal(n);
    assert s[|s| - 1] == DIGITS[m % 10] && t[|t| - 1] == DIGITS[n % 10];
    DigitsDiffer(m % 10, n % 10);
    if m >= 10 && n >= 10 {
      assert Decimal(m / 10) == s[..|s| - 1] && Decimal(n / 10) == t[..|t| - 1];
      DecimalInjective(m / 10, n / 10);
    }
  }

  lemma DigitsDiffer(a: nat, b: nat)
    requires a < 10 && b < 10 && DIGITS[a] == DIGITS[b]
    ensures a == b
  {
  }

  function ApprovalName(grant: string): string {
    "among-clusters-approval-" + grant
  }

  predicate ApprovedBy(i: Instruction, a: Approval) {
    a.grantRef == i.name && a.generation == Decimal(i.generation) && a.approved == "true"
  }

  predicate OwnerApproved(i: Instruction, approvals: map<string, Approval>) {
    ApprovalName(i.name) in approvals && ApprovedBy(i, approvals[ApprovalName(i.name)])
  }

  predicate Retirable(i: Instruction, now: Time) {
    i.revoked || !(now < i.expiresAt)
  }

  // ---------------------------------------------------------------------------------------------
  // RBAC objects
  // ---------------------------------------------------------------------------------------------

  /** An object of the agent's cluster; only the two kinds of role carry rules. */
  datatype Target =
    | Account(name: string)
    | ClusterRole(name: string)
    | ClusterBinding(name: string)
    | Role(namespace: string, name: string)
    | Binding(namespace: string, name: string)

  type Cluster = map<Target, seq<Rule>>

  datatype Put = Put(target: Target, rules: seq<Rule>)

  function GrantResource(grant: string): string {
    Trim(Cut(GRANT_PREFIX + LowerAll(grant)))
  }

  const GRANT_PREFIX: string := "among-clusters-"

  /** A grant of at most 48 characters, not ending with a hyphen, has the prefix and its own name in lower case for an object name. */
  lemma ShortGrantResource(grant: string)
    requires grant != "" && |grant| <= 48 && grant[|grant| - 1] != '-'
    ensures var name := GrantResource(grant);
            && |name| == 15 + |grant| && name[..15] == "among-clusters-"
            && forall k | 0 <= k < |grant| ::
                 name[15 + k] == if 'A' <= grant[k] <= 'Z' then (grant[k] as int - 'A' as int + 'a' as int) as char else grant[k]
  {
    var text := GRANT_PREFIX + LowerAll(grant);
    assert text[0] == 'a' && text[|text| - 1] == Lower(grant[|grant| - 1]);
    assert Cut(text) == text && Trim(text) == text;
    assert text[..15] == GRANT_PREFIX;
  }

  /** Two grants share their objects exactly when their first 48 characters agree in lower case but for trailing hyphens. */
  lemma SharedResourceIff(a: string, b: string)
    ensures GrantResource(a) == GrantResource(b) <==> SameUpToHyphens(LowerAll(First48(a)), LowerAll(First48(b)))
  {
    hide Trim, Tail;
    var x, y := Cut(GRANT_PREFIX + LowerAll(a)), Cut(GRANT_PREFIX + LowerAll(b));
    VisibleGrant(a);
    VisibleGrant(b);
    TrimIsTailOfLead(x);
    TrimIsTailOfLead(y);
    SameTailIff(x, y);
    SamePrefixed(GRANT_PREFIX, LowerAll(First48(a)), LowerAll(First48(b)));
  }

  function First48(s: string): string {
    if |s| > 48 then s[..48] else s
  }

  lemma VisibleGrant(grant: string)
    ensures Cut(GRANT_PREFIX + LowerAll(grant)) == GRANT_PREFIX + LowerAll(First48(grant))
    ensures Lead(Cut(GRANT_PREFIX + LowerAll(grant))) == Cut(GRANT_PREFIX + LowerAll(grant))
  {
    assert |GRANT_PREFIX| == 15 && GRANT_PREFIX[0] == 'a';
    assert LowerAll(First48(grant)) == First48(LowerAll(grant));
  }

  lemma SamePrefixed(p: string, a: string, b: string)
    ensures SameUpToHyphens(p + a, p + b) <==> SameUpToHyphens(a, b)
  {
    PrefixCancels(p, a, b);
    PrefixCancels(p, b, a);
  }

  lemma PrefixCancels(p: string, a: string, b: string)
    ensures p + a <= p + b <==> a <= b
    ensures a <= b ==> (p + b)[|p + a|..] == b[|a|..]
  {
    if p + a <= p + b {
      assert (p + a)[|p|..] == a && (p + b)[|p|..] == b;
    }
  }

  predicate Namespaced(scope: string) {
    scope == "" || scope == "Namespaced"
  }

  predicate Supported(scope: string) {
    scope == "Cluster" || Namespaced(scope)
  }

  function PerNamespace(name: string, rules: seq<Rule>, namespaces: seq<string>): seq<Put> {
    if namespaces == [] then []
    else
      var last := namespaces[|namespaces| - 1];
      PerNamespace(name, rules, namespaces[..|namespaces| - 1]) + [Put(Role(last, name), rules), Put(Binding(last, name), [])]
  }

  /** Everything an approved instruction writes, in order. */
  function Plan(i: Instruction): seq<Put> {
    var name := GrantResource(i.name);
    [Put(Account(name), [])] +
    if i.scope == "Cluster" then [Put(ClusterRole(name), i.rules), Put(ClusterBinding(name), [])]
    else if Namespaced(i.scope) then PerNamespace(name, i.rules, i.namespaces)
    else []
  }

  /** Everything a revoked or expired instruction deletes. */
  function Drops(i: Instruction): set<Target> {
    var name := GrantResource(i.name);
    {Account(name), ClusterRole(name), ClusterBinding(name)}
    + (set ns | ns in i.namespaces :: Role(ns, name)) + (set ns | ns in i.namespaces :: Binding(ns, name))
  }

  function Apply(c: Cluster, puts: seq<Put>): Cluster
    decreases |puts|
  {
    if puts == [] then c
    else
      var last := puts[|puts| - 1];
      Apply(c, puts[..|puts| - 1])[last.target := last.rules]
  }

  lemma ApplyOne(c: Cluster, puts: seq<Put>, put: Put)
    ensures Apply(c, puts + [put]) == Apply(c, puts)[put.target := put.rules]
  {
    assert (puts + [put])[..|puts|] == puts;
  }

  lemma {:induction false} PerNamespacePrefix(name: string, rules: seq<Rule>, namespaces: seq<string>, k: nat)
    requires k < |namespaces|
    ensures PerNamespace(name, rules, namespaces[..k + 1])
            == PerNamespace(name, rules, namespaces[..k]) + [Put(Role(namespaces[k], name), rules), Put(Binding(namespaces[k], name), [])]
    ensures PerNamespace(name, rules, namespaces[..k + 1]) <= PerNamespace(name, rules, namespaces)
    decreases |namespaces|
  {
    var shorter := namespaces[..|namespaces| - 1];
    assert namespaces[..k + 1][..k] == namespaces[..k];
    if k < |shorter| {
      PerNamespacePrefix(name, rules, shorter, k);
      assert shorter[..k + 1] == namespaces[..k + 1];
    } else {
      assert namespaces[..k + 1] == namespaces;
    }
  }

  /** A plan writes the instruction's own rules, and only under its name, scope and namespaces. */
  ghost predicate Within(i: Instruction, put: Put) {
    match put.target
    case ClusterRole(name) => name == GrantResource(i.name) && i.scope == "Cluster" && put.rules == i.rules
    case Role(ns, name) => name == GrantResource(i.name) && Namespaced(i.scope) && ns in i.namespaces && put.rules == i.rules
    case ClusterBinding(name) => name == GrantResource(i.name) && i.scope == "Cluster" && put.rules == []
    case Binding(ns, name) => name == GrantResource(i.name) && Namespaced(i.scope) && ns in i.namespaces && put.rules == []
    case Account(name) => name == GrantResource(i.name) && put.rules == []
  }

  lemma {:induction false} PerNamespaceWithin(name: string, rules: seq<Rule>, namespaces: seq<string>, k: nat)
    requires k < |PerNamespace(name, rules, namespaces)|
    ensures var put := PerNamespace(name, rules, namespaces)[k];
            || (put.target.Role? && put.target.name == name && put.target.namespace in namespaces && put.rules == rules)
            || (put.target.Binding? && put.target.name == name && put.target.namespace in namespaces && put.rules == [])
    decreases |namespaces|
  {
    var shorter := namespaces[..|namespaces| - 1];
    if k < |PerNamespace(name, rules, shorter)| {
      PerNamespaceWithin(name, rules, shorter, k);
    }
  }

  lemma PlanWithin(i: Instruction, k: nat)
    requires k < |Plan(i)|
    ensures Within(i, Plan(i)[k])
  {
    if Namespaced(i.scope) && k > 0 {
      PerNamespaceWithin(GrantResource(i.name), i.rules, i.namespaces, k - 1);
    }
  }

  // ---------------------------------------------------------------------------------------------
  // Token lifetime
  // ---------------------------------------------------------------------------------------------

  const MIN_LIFETIME := 600
  const MAX_LIFETIME := 3600

  /** `int64(d.Seconds())`: towards zero. */
  function Seconds(d: int): int {
    if d >= 0 then d / SECOND else -(-d / SECOND)
  }

  /** The requested lifetime in seconds, none when too little time is left. */
  function Lifetime(expiresAt: Time, now: Time): Option<int> {
    var seconds := Seconds(expiresAt - now);
    var capped := if seconds > MAX_LIFETIME then MAX_LIFETIME else seconds;
    if capped < MIN_LIFETIME then None else Some(capped)
  }

  /** A lifetime is granted exactly when ten minutes are left, never outlives the grant, and wastes less than a second below the cap. */
  lemma LifetimeBounds(expiresAt: Time, now: Time)
    ensures var l := Lifetime(expiresAt, now);
            && (l.Some? <==> expiresAt - now >= MIN_LIFETIME * SECOND)
            && (l.Some? ==>
                  && MIN_LIFETIME <= l.value <= MAX_LIFETIME
                  && now + l.value * SECOND <= expiresAt
                  && (l.value < MAX_LIFETIME ==> expiresAt < now + (l.value + 1) * SECOND))
  {
  }

  // ---------------------------------------------------------------------------------------------
  // The agent's grant loop
  // ---------------------------------------------------------------------------------------------

  datatype GrantError = Failed | ApprovalRequired | ApprovalInvalid | UnsupportedScope | ExpiresTooSoon

  /** A `credential.store` message as the broker receives it; `requestedAt` is when its token's lifetime was computed. */
  datatype Store = Store(grantRef: string, server: string, lifetime: int, requestedAt: Time, generation: int)

  /** `store` carries what instruction `i` allows. */
  predicate Allowed(i: Instruction, store: Store) {
    && store.grantRef == i.name && store.server == i.proxyURL && !i.revoked && Supported(i.scope)
    && Lifetime(i.expiresAt, store.requestedAt) == Some(store.lifetime)
  }

  class Agent {
    var sequence: int
    var clock: Time
    var cluster: Cluster
    var stores: seq<Store>
    var revokes: seq<string>

    /** How often the uint64 `sequence` was counted up, and that count plus one at each store. */
    ghost var count: nat
    ghost var numbers: seq<nat>

    ghost predicate Valid()
      reads this
    {
      && sequence == count % TWO64
      && |numbers| == |stores|
      && (forall k | 0 <= k < |stores| :: stores[k].generation == numbers[k] % TWO64)
      && (forall j, k | 0 <= j < k < |numbers| :: numbers[j] < numbers[k])
      && (forall k | 0 <= k < |numbers| :: numbers[k] <= count + 1)
    }

    /** Inside a poll every earlier store has been overtaken. */
    ghost predicate Overtaken()
      reads this
    {
      forall k | 0 <= k < |numbers| :: numbers[k] <= count
    }

    /** A process that has just loaded its sequence. */
    constructor (loaded: nat, now: Time, found: Cluster)
      requires loaded < TWO64
      ensures Valid() && Overtaken() && count == loaded && cluster == found && stores == [] && clock == now
    {
      sequence, count, clock, cluster, stores, revokes, numbers := loaded, loaded, now, found, [], [], [];
    }

    method Now() returns (t: Time)
      modifies this`clock
      ensures t == clock >= old(clock)
    {
      var passed :| passed >= 0;
      clock := clock + passed;
      t := clock;
    }

    /** `sendControl` to the Hub: whatever becomes of the message, the sequence has moved on. */
    method SendControl(outage: bool) returns (ok: bool)
      requires Valid()
      modifies this`sequence, this`count
      ensures Valid() && Overtaken() && count == old(count) + 1
      ensures !outage ==> ok
    {
      sequence := (sequence + 1) % TWO64;
      count := count + 1;
      var fails := Fails(outage);
      ok := !fails;
    }

    /** One create, or a get and an update of an object that exists; a refused write may still have taken effect. */
    method Write(put: Put, outage: bool) returns (ok: bool)
      modifies this`cluster
      ensures cluster == old(cluster) || cluster == old(cluster)[put.target := put.rules]
      ensures ok ==> cluster == old(cluster)[put.target := put.rules]
      ensures !outage ==> ok
    {
      var fails := Fails(outage);
      if fails { return false; }
      cluster := cluster[put.target := put.rules];
      fails := Fails(outage);
      ok := !fails;
    }

    /** Deletions whose errors are ignored; `kept` are the targets whose deletion failed. */
    method Delete(targets: set<Target>, outage: bool) returns (ghost kept: set<Target>)
      modifies this`cluster
      ensures kept <= targets && cluster == old(cluster) - (targets - kept)
      ensures !outage ==> kept == {}
    {
      kept := {};
      var rest := targets;
      while rest != {}
        invariant rest <= targets && kept <= targets - rest
        invariant cluster == old(cluster) - (targets - rest - kept) && (!outage ==> kept == {})
        decreases |rest|
      {
        var t :| t in rest;
        var fails := Fails(outage);
        if !fails {
          DropOne(old(cluster), targets - rest - kept, t);
          assert targets - rest - kept + {t} == targets - (rest - {t}) - kept;
          cluster := cluster - {t};
        } else {
          assert targets - rest - kept == targets - (rest - {t}) - (kept + {t});
          kept := kept + {t};
        }
        rest := rest - {t};
      }
      assert targets - {} - kept == targets - kept;
    }

    /** The RBAC writes in the order of the plan; `done` is how far they certainly or possibly got. */
    method Provision(i: Instruction, outage: bool) returns (r: Result<(), GrantError>, ghost done: seq<Put>)
      modifies this`cluster
      ensures done <= Plan(i) && cluster == Apply(old(cluster), done)
      ensures r.Ok? ==> done == Plan(i) && Supported(i.scope)
      ensures r == Err(UnsupportedScope) ==> !Supported(i.scope)
      ensures r.Err? ==> r.error == Failed || r.error == UnsupportedScope
      ensures !outage ==> done == Plan(i) && (r.Ok? || r.error == UnsupportedScope) && (r.Ok? <==> Supported(i.scope))
    {
      hide GrantResource, PerNamespace;
      var name := GrantResource(i.name);
      done := [];
      var ok := Write(Put(Account(name), []), outage);
      ApplyOne(old(cluster), done, Put(Account(name), []));
      if !ok {
        if cluster != old(cluster) { done := [Put(Account(name), [])]; }
        return Err(Failed), done;
      }
      done := [Put(Account(name), [])];
      if i.scope == "Cluster" {
        assert done + [Put(ClusterRole(name), i.rules), Put(ClusterBinding(name), [])] == Plan(i);
        r, done := ProvisionRole(old(cluster), done, Put(ClusterRole(name), i.rules), Put(ClusterBinding(name), []), outage);
        return r, done;
      }
      if i.scope != "" && i.scope != "Namespaced" {
        assert done == Plan(i);
        return Err(UnsupportedScope), done;
      }
      assert done + PerNamespace(name, i.rules, i.namespaces) == Plan(i);
      r, done := ProvisionNamespaces(old(cluster), i, name, done, outage);
    }

    method ProvisionNamespaces(ghost start: Cluster, i: Instruction, name: string, ghost before: seq<Put>, outage: bool)
      returns (r: Result<(), GrantError>, ghost done: seq<Put>)
      requires cluster == Apply(start, before)
      modifies this`cluster
      ensures done <= before + PerNamespace(name, i.rules, i.namespaces) && cluster == Apply(start, done)
      ensures r.Ok? ==> done == before + PerNamespace(name, i.rules, i.namespaces)
      ensures r.Err? ==> r.error == Failed && outage
    {
      hide Apply;
      done := before;
      for k := 0 to |i.namespaces|
        invariant done == before + PerNamespace(name, i.rules, i.namespaces[..k])
        invariant cluster == Apply(start, done)
      {
        PerNamespacePrefix(name, i.rules, i.namespaces, k);
        r, done := ProvisionRole(start, done, Put(Role(i.namespaces[k], name), i.rules), Put(Binding(i.namespaces[k], name), []), outage);
        if r.Err? { return; }
      }
      assert i.namespaces[..|i.namespaces|] == i.namespaces;
      r := Ok(());
    }

    /** A role, then its binding, after the puts in `before`. */
    method ProvisionRole(ghost start: Cluster, ghost before: seq<Put>, role: Put, binding: Put, outage: bool)
      returns (r: Result<(), GrantError>, ghost done: seq<Put>)
      requires cluster == Apply(start, before)
      modifies this`cluster
      ensures before <= done <= before + [role, binding] && cluster == Apply(start, done)
      ensures r.Ok? ==> done == before + [role, binding]
      ensures r.Err? ==> r.error == Failed && outage
    {
      done := before;
      ApplyOne(start, before, role);
      ApplyOne(start, before + [role], binding);
      assert before + [role] + [binding] == before + [role, binding];
      var ok := Write(role, outage);
      if cluster == Apply(start, before + [role]) { done := before + [role]; }
      if !ok { return Err(Failed), done; }
      ok := Write(binding, outage);
      if cluster == Apply(start, before + [role, binding]) { done := before + [role, binding]; }
      return if ok then Ok(()) else Err(Failed), done;
    }

    /** Encrypts for the broker, borrows the next sequence number, and reports to the Hub what the broker accepted. */
    method UploadCredential(i: Instruction, lifetime: int, requestedAt: Time, outage: bool) returns (r: Result<(), GrantError>)
      requires Valid() && Overtaken()
      requires Supported(i.scope) && !i.revoked && Lifetime(i.expiresAt, requestedAt) == Some(lifetime)
      modifies this`stores, this`sequence, this`count, this`numbers
      ensures Valid() && (r.Ok? ==> Overtaken()) && count >= old(count)
      ensures r.Ok? ==> stores != old(stores)
      ensures r.Err? ==> r.error == Failed && outage
      ensures stores == old(stores)
              || exists s: Store :: stores == old(stores) + [s] && Allowed(i, s) && s.requestedAt == requestedAt
    {
      var fails := Fails(outage);
      if fails { return Err(Failed); }
      hide Lifetime, Supported, Allowed;
      var s := Store(i.name, i.proxyURL, lifetime, requestedAt, (sequence + 1) % TWO64);
      StoreAllowed(i, s);
      stores, numbers := stores + [s], numbers + [count + 1];
      fails := Fails(outage);
      if fails { return Err(Failed); }
      var ok := SendControl(outage);
      return if ok then Ok(()) else Err(Failed);
    }

    method ReconcileGrant(i: Instruction, approvals: map<string, Approval>, outage: bool)
      returns (r: Result<(), GrantError>, ghost done: seq<Put>, ghost started: Time, ghost kept: set<Target>)
      requires Valid() && Overtaken()
      modifies this
      ensures Valid() && (r.Ok? ==> Overtaken()) && count >= old(count) && old(clock) <= started <= clock
      ensures stores == old(stores)
              || exists s: Store :: stores == old(stores) + [s] && Allowed(i, s) && started <= s.requestedAt <= clock
      ensures stores != old(stores) ==> OwnerApproved(i, approvals) && done == Plan(i)
      ensures r.Ok? ==> if Retirable(i, started) then revokes == old(revokes) + [i.name] else stores != old(stores)
      ensures Retirable(i, started) ==>
                && done == [] && stores == old(stores)
                && kept <= Drops(i) && cluster == old(cluster) - (Drops(i) - kept)
      ensures !Retirable(i, started) ==> done <= Plan(i) && cluster == Apply(old(cluster), done) && revokes == old(revokes)
      ensures !Retirable(i, started) && !OwnerApproved(i, approvals) ==> r.Err? && done == []
      ensures revokes == old(revokes) || revokes == old(revokes) + [i.name]
      ensures !outage ==> kept == {} && (Retirable(i, started) ==> r.Ok?)
      ensures !outage && !Retirable(i, started) ==> Determined(i, approvals, r, done, clock)
    {
      hide Drops, Plan, Allowed, Lifetime, Supported, Decimal;
      done, kept := [], {};
      started := Now();
      var now := clock;
      if i.revoked || !(now < i.expiresAt) {
        kept := Delete(Drops(i), outage);
        var fails := Fails(outage);
        if fails { return Err(Failed), done, started, kept; }
        revokes := revokes + [i.name];
        fails := Fails(outage);
        return if fails then Err(Failed) else Ok(()), done, started, kept;
      }
      var fails := Fails(outage);
      if fails { return Err(ApprovalRequired), done, started, kept; }
      var name := "among-clusters-approval-" + i.name;
      if name !in approvals { return Err(ApprovalRequired), done, started, kept; }
      var a := approvals[name];
      if a.grantRef != i.name || a.generation != Decimal(i.generation) || a.approved != "true" {
        return Err(ApprovalInvalid), done, started, kept;
      }
      r, done := Provision(i, outage);
      if r.Err? { return r, done, started, kept; }
      now := Now();
      var lifetime := Lifetime(i.expiresAt, now);
      LifetimeBounds(i.expiresAt, now);
      if lifetime.None? { return Err(ExpiresTooSoon), done, started, kept; }
      fails := Fails(outage);
      if fails { return Err(Failed), done, started, kept; }
      r := UploadCredential(i, lifetime.value, now, outage);
    }

    /** One poll: the message to the Hub, then the instructions it answered with, until one fails. */
    method PollGrants(answer: seq<Instruction>, approvals: map<string, Approval>, outage: bool) returns (r: Result<(), GrantError>)
      requires Valid()
      modifies this
      ensures Valid() && count > old(count) && clock >= old(clock)
      ensures old(stores) <= stores
      ensures forall k | |old(stores)| <= k < |stores| ::
                old(clock) <= stores[k].requestedAt && exists i | i in answer :: Allowed(i, stores[k]) && OwnerApproved(i, approvals)
      ensures forall t <- cluster :: (t in old(cluster) && cluster[t] == old(cluster)[t])
                || exists i | i in answer :: Within(i, Put(t, cluster[t])) && OwnerApproved(i, approvals)
      ensures DroppedBy(old(cluster), cluster, answer, clock)
      ensures r.Ok? ==> forall i <- answer :: Served(i, revokes, stores[|old(stores)|..])
      ensures !outage && (forall i <- answer :: InOrder(i, approvals, old(clock), clock)) ==> r.Ok?
    {
      hide Within, OwnerApproved, Allowed, Retirable, Drops, Plan, Served, InOrder, Determined;
      var ok := SendControl(outage);
      if !ok { return Err(Failed); }
      for k := 0 to |answer|
        invariant Valid() && Overtaken() && count > old(count) && clock >= old(clock)
        invariant old(stores) <= stores
        invariant forall k | |old(stores)| <= k < |stores| ::
                    old(clock) <= stores[k].requestedAt && exists i | i in answer :: Allowed(i, stores[k]) && OwnerApproved(i, approvals)
        invariant forall t <- cluster :: (t in old(cluster) && cluster[t] == old(cluster)[t])
                    || exists i | i in answer :: Within(i, Put(t, cluster[t])) && OwnerApproved(i, approvals)
        invariant DroppedBy(old(cluster), cluster, answer, clock)
        invariant forall j | 0 <= j < k :: Served(answer[j], revokes, stores[|old(stores)|..])
      {
        label L:
        ghost var done, started, kept;
        assert answer[k] in answer;
        r, done, started, kept := ReconcileGrant(answer[k], approvals, outage);
        PlannedWithin(answer[k], old@L(cluster), done);
        StillDropped(old(cluster), old@L(cluster), cluster, answer, k, old@L(clock), started, clock);
        if r.Err? {
          if !outage { BlockedGrant(answer[k], approvals, r, done, old(clock), started, clock); }
          return;
        }
        ServedNow(answer[k], old@L(revokes), revokes, old@L(stores), stores, |old(stores)|, started);
        forall j | 0 <= j < k ensures Served(answer[j], revokes, stores[|old(stores)|..]) {
          StillServed(answer[j], old@L(revokes), revokes, old@L(stores), stores, |old(stores)|);
        }
      }
      r := Ok(());
    }
  }

  /** Without outages, what becomes of an instruction that is neither revoked nor expired. */
  predicate Determined(i: Instruction, approvals: map<string, Approval>, r: Result<(), GrantError>, done: seq<Put>, now: Time) {
    if ApprovalName(i.name) !in approvals then r == Err(ApprovalRequired)
    else if !ApprovedBy(i, approvals[ApprovalName(i.name)]) then r == Err(ApprovalInvalid)
    else
      && done == Plan(i)
      && (if !Supported(i.scope) then r == Err(UnsupportedScope)
          else r.Ok? || (r == Err(ExpiresTooSoon) && i.expiresAt < now + MIN_LIFETIME * SECOND))
  }

  /** The broker was told of the instruction: to revoke its credential, or to store one that it allows. */
  ghost predicate Served(i: Instruction, revokes: seq<string>, stores: seq<Store>) {
    i.name in revokes || exists s <- stores :: Allowed(i, s)
  }

  /** Nothing but an outage stands in the way: retirable since `before`, or approved, of a known scope and ten minutes from expiry at `after`. */
  predicate InOrder(i: Instruction, approvals: map<string, Approval>, before: Time, after: Time) {
    Retirable(i, before) || (OwnerApproved(i, approvals) && Supported(i.scope) && after + MIN_LIFETIME * SECOND <= i.expiresAt)
  }

  lemma ServedNow(
    i: Instruction, revokesBefore: seq<string>, revokes: seq<string>, storesBefore: seq<Store>, stores: seq<Store>, n: nat, started: Time)
    requires n <= |storesBefore| <= |stores|
    requires if Retirable(i, started) then revokes == revokesBefore + [i.name]
             else exists s: Store :: stores == storesBefore + [s] && Allowed(i, s)
    ensures Served(i, revokes, stores[n..])
  {
    if !Retirable(i, started) {
      var s: Store :| stores == storesBefore + [s] && Allowed(i, s);
      assert stores[n..][|storesBefore| - n] == s;
    }
  }

  lemma StillServed(
    i: Instruction, revokesBefore: seq<string>, revokes: seq<string>, storesBefore: seq<Store>, stores: seq<Store>, n: nat)
    requires n <= |storesBefore| && revokesBefore <= revokes && storesBefore <= stores && Served(i, revokesBefore, storesBefore[n..])
    ensures Served(i, revokes, stores[n..])
  {
    if i.name !in revokesBefore {
      var s :| s in storesBefore[n..] && Allowed(i, s);
      var k :| 0 <= k < |storesBefore[n..]| && storesBefore[n..][k] == s;
      assert stores[n..][k] == s;
    } else {
      var k :| 0 <= k < |revokesBefore| && revokesBefore[k] == i.name;
      assert revokes[k] == i.name;
    }
  }

  lemma BlockedGrant(
    i: Instruction, approvals: map<string, Approval>, r: Result<(), GrantError>, done: seq<Put>, before: Time, started: Time, now: Time)
    requires before <= started && r.Err? && !Retirable(i, started) && Determined(i, approvals, r, done, now)
    ensures !InOrder(i, approvals, before, now)
  {
  }

  /** Whatever is gone was named by an instruction of the answer that was revoked or had expired by `now`. */
  ghost predicate DroppedBy(before: Cluster, after: Cluster, answer: seq<Instruction>, now: Time) {
    forall t <- before :: t in after || exists i | i in answer :: t in Drops(i) && Retirable(i, now)
  }

  lemma StillDropped(
    before: Cluster, middle: Cluster, after: Cluster, answer: seq<Instruction>, k: nat, earlier: Time, started: Time, now: Time)
    requires k < |answer| && DroppedBy(before, middle, answer, earlier) && earlier <= started <= now
    requires middle.Keys <= after.Keys || (Retirable(answer[k], started) && middle.Keys - Drops(answer[k]) <= after.Keys)
    ensures DroppedBy(before, after, answer, now)
  {
    hide Drops;
    forall t | t in before && t !in after ensures exists i | i in answer :: t in Drops(i) && Retirable(i, now) {
      if t in middle {
        assert answer[k] in answer && t in Drops(answer[k]);
      } else {
        var i :| i in answer && t in Drops(i) && Retirable(i, earlier);
        assert Retirable(i, now);
      }
    }
  }

  lemma StoreAllowed(i: Instruction, s: Store)
    requires Supported(i.scope) && !i.revoked && Lifetime(i.expiresAt, s.requestedAt) == Some(s.lifetime)
    requires s.grantRef == i.name && s.server == i.proxyURL
    ensures Allowed(i, s)
  {
  }

  lemma DropOne(c: Cluster, gone: set<Target>, t: Target)
    ensures c - gone - {t} == c - (gone + {t})
  {
  }

  /** Whatever a partial plan changed is within its instruction. */
  lemma {:induction false} PlannedWithin(i: Instruction, c: Cluster, done: seq<Put>)
    requires done <= Plan(i)
    ensures forall t <- Apply(c, done) :: (t in c && Apply(c, done)[t] == c[t]) || Within(i, Put(t, Apply(c, done)[t]))
    ensures c.Keys <= Apply(c, done).Keys
    decreases |done|
  {
    hide Plan, Within;
    if done != [] {
      var k := |done| - 1;
      PlannedWithin(i, c, done[..k]);
      PlanWithin(i, k);
      assert Plan(i)[k] == done[k];
    }
  }

  /** While the sequence has not used up the uint64 range, an incarnation's stores carry strictly increasing generations. */
  lemma StoresIncrease(a: Agent, j: nat, k: nat)
    requires a.Valid() && j < k < |a.stores| && a.numbers[k] < TWO64
    ensures a.stores[j].generation < a.stores[k].generation
  {
    assert a.numbers[j] < a.numbers[k];
  }
}
