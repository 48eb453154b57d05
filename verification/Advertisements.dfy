/**
 `SyncAdvertisements`: a publisher's service snapshot passes the policy gate service by service, is
 written as advertisements and imports, and what the snapshot no longer names is revoked.
 */
module Advertisements {
  import opened Values
  import opened Protocol
  import opened Sorting
  import opened ObjectNames
  import opened ControlPlane
  import ControlTheorems

  // ---------------------------------------------------------------------------------------------
  // Objects
  // ---------------------------------------------------------------------------------------------

  datatype Service = Service(
    name: string, namespace: string, serviceClass: string, protocol: string, port: int,
    targetPeers: seq<string>, ttlSeconds: int, policyRef: string, generation: int)

  /** An entry of `ports` that is no integer reads as `None`; `maxAdvertisements` may be absent. */
  datatype Policy = Policy(
    serviceClasses: seq<string>, protocols: seq<string>, ports: seq<Option<int>>, directions: seq<string>,
    maxAdvertisements: Option<int>, matchNames: seq<string>, matchAllReady: bool)

  /** What the API server answers about one tenant while one service is being handled. */
  datatype World = World(policies: map<string, Policy>, peers: map<string, Peer>)

  datatype Advertisement = Advertisement(
    publisherLabel: string, publishedAt: Time, publisherRef: string, serviceIdentity: string, serviceClass: string,
    protocol: string, port: int, localService: string, gatewayEndpoints: seq<string>, targetPeers: seq<string>,
    ttlSeconds: int, generation: int, policyRef: string, revoked: bool)

  datatype Import = Import(advertisementRef: string, peerRef: string, localServiceName: string)

  datatype Publisher = Publisher(issuer: string, identity: Identity, now: Time)

  datatype SyncError = UnknownPublisher | Refused | ApiFailure

  // ---------------------------------------------------------------------------------------------
  // Names
  // ---------------------------------------------------------------------------------------------

  /** The text an advertisement is named after. */
  function AdText(issuer: string, s: Service): string {
    issuer + "-" + s.namespace + "-" + s.name
  }

  function AdName(issuer: string, s: Service): string {
    ObjectName(AdText(issuer, s))
  }

  function ImportName(name: string, peer: string): string {
    Cut(name + "-" + peer)
  }

  /** The first `n` characters. */
  function First(n: nat, s: string): string {
    if |s| > n then s[..n] else s
  }

  /** Two target peers share an import exactly when the advertisement's name leaves no room for a character in which they differ. */
  lemma SharedImportIff(name: string, t: string, u: string)
    ensures ImportName(name, t) == ImportName(name, u) <==> |name| >= 63 || First(62 - |name|, t) == First(62 - |name|, u)
  {
    var a, b := name + "-" + t, name + "-" + u;
    if |name| >= 63 {
      assert a[..63] == name[..63] == b[..63];
    } else {
      ImportText(name, t);
      ImportText(name, u);
      var x, y := First(62 - |name|, t), First(62 - |name|, u);
      assert (name + "-" + x)[|name| + 1..] == x && (name + "-" + y)[|name| + 1..] == y;
    }
  }

  lemma ImportText(name: string, t: string)
    requires |name| < 63
    ensures ImportName(name, t) == name + "-" + First(62 - |name|, t)
  {
  }

  function Names(issuer: string, services: seq<Service>): set<string> {
    set s | s in services :: AdName(issuer, s)
  }

  /** An advertisement name fits a DNS label's length, neither starts nor ends with a hyphen and holds no capital, underscore or dot. */
  lemma AdNameShape(issuer: string, s: Service)
    ensures var n := AdName(issuer, s);
            && |n| <= NAME_LIMIT
            && (n != "" ==> n[0] != '-' && n[|n| - 1] != '-')
            && forall c <- n :: c != '_' && c != '.' && !('A' <= c <= 'Z')
  {
    var cut := Visible(AdText(issuer, s));
    TrimShape(cut);
    forall c | c in cut ensures c != '_' && c != '.' && !('A' <= c <= 'Z') {
      var i :| 0 <= i < |cut| && cut[i] == c;
    }
  }

  /** The hyphen-separated pieces of an advertisement's parts. */
  function AdPieces(issuer: string, s: Service): seq<string> {
    Pieces(TameAll(issuer)) + Pieces(TameAll(s.namespace)) + Pieces(TameAll(s.name))
  }

  lemma AdPiecesAreTheText(issuer: string, s: Service)
    ensures Pieces(TameAll(AdText(issuer, s))) == AdPieces(issuer, s)
  {
    TameJoins(issuer + "-" + s.namespace, s.name);
    TameJoins(issuer, s.namespace);
    PiecesOfJoin(TameAll(issuer) + "-" + TameAll(s.namespace), TameAll(s.name));
    PiecesOfJoin(TameAll(issuer), TameAll(s.namespace));
  }

  /**
   Two services, of one publisher or of two, share a name exactly when their visible texts agree but for hyphens at the
   ends; when neither text is cut nor has such ends, exactly when the hyphen-separated pieces of issuer, namespace and
   name are the same list, wherever the parts divide it; and when both are cut, exactly when the first 63 characters agree.
   */
  lemma NamesCollideIff(a: string, s: Service, b: string, t: Service)
    ensures AdName(a, s) == AdName(b, t) <==> SameUpToHyphens(Lead(Visible(AdText(a, s))), Lead(Visible(AdText(b, t))))
    ensures Edged(AdText(a, s)) && Edged(AdText(b, t)) && |AdText(a, s)| <= NAME_LIMIT && |AdText(b, t)| <= NAME_LIMIT ==>
              (AdName(a, s) == AdName(b, t) <==> AdPieces(a, s) == AdPieces(b, t))
    ensures Edged(AdText(a, s)) && Edged(AdText(b, t)) && |AdText(a, s)| >= NAME_LIMIT && |AdText(b, t)| >= NAME_LIMIT ==>
              (AdName(a, s) == AdName(b, t) <==> TameAll(AdText(a, s)[..NAME_LIMIT]) == TameAll(AdText(b, t)[..NAME_LIMIT]))
  {
    hide ObjectName, Visible, Lead, SameUpToHyphens, TameAll, Pieces, AdText, AdPieces;
    var x, y := AdText(a, s), AdText(b, t);
    SameNameIff(x, y);
    if Edged(x) && Edged(y) && |x| <= NAME_LIMIT && |y| <= NAME_LIMIT {
      SameShortNameIff(x, y);
      AdPiecesAreTheText(a, s);
      AdPiecesAreTheText(b, t);
      if AdPieces(a, s) == AdPieces(b, t) { PiecesDetermine(TameAll(x), TameAll(y)); }
    }
    if Edged(x) && Edged(y) && |x| >= NAME_LIMIT && |y| >= NAME_LIMIT {
      SameLongNameIff(x, y);
    }
  }

  /** So a hyphen can move between any two neighbouring parts, whatever the parts are. */
  lemma NamesCollide(a: string, b: string, c: string, d: string, s: Service)
    ensures AdName(a, s.(namespace := b + "-" + c, name := d)) == AdName(a + "-" + b, s.(namespace := c, name := d))
    ensures AdName(a, s.(namespace := b + "-" + c, name := d)) == AdName(a, s.(namespace := b, name := c + "-" + d))
  {
    assert a + "-" + (b + "-" + c) + "-" + d == (a + "-" + b) + "-" + c + "-" + d;
    assert a + "-" + (b + "-" + c) + "-" + d == a + "-" + b + "-" + (c + "-" + d);
  }

  // ---------------------------------------------------------------------------------------------
  // The policy gate
  // ---------------------------------------------------------------------------------------------

  predicate Member(issuer: string, p: Peer) {
    issuer == p.localRef || issuer == p.remoteRef
  }

  function ReadyPeers(w: World, issuer: string): set<string> {
    set n | n in w.peers && w.peers[n].state == Ready && !w.peers[n].suspended && Member(issuer, w.peers[n])
  }

  predicate WithinQuota(policy: Policy, total: nat) {
    policy.maxAdvertisements.Some? && policy.maxAdvertisements.value >= 0 ==> total <= policy.maxAdvertisements.value
  }

  predicate Complete(s: Service) {
    s.name != "" && s.namespace != "" && s.policyRef != "" && s.port >= 1 && s.targetPeers != []
  }

  predicate ContractAllowed(policy: Policy, s: Service) {
    && s.serviceClass in policy.serviceClasses && s.protocol in policy.protocols && "export" in policy.directions
    && (policy.ports == [] || Some(s.port) in policy.ports)
  }

  predicate TargetAllowed(w: World, issuer: string, policy: Policy, t: string) {
    (policy.matchAllReady || t in policy.matchNames) && t in w.peers && Member(issuer, w.peers[t])
  }

  const WILDCARD: seq<string> := ["*"]

  /** Service `s` of a snapshot of `total` services passes its policy and is published to exactly `targets`. */
  ghost predicate Accepts(w: World, issuer: string, s: Service, total: nat, targets: seq<string>) {
    && Complete(s) && s.policyRef in w.policies
    && var policy := w.policies[s.policyRef];
    && WithinQuota(policy, total) && ContractAllowed(policy, s)
    && (if s.targetPeers == WILDCARD
        then policy.matchAllReady && targets != [] && SortedNames(targets, ReadyPeers(w, issuer))
        else targets == s.targetPeers)
    && forall t <- targets :: TargetAllowed(w, issuer, policy, t)
  }

  /** The target list of an accepted service is determined by what the API server answered. */
  lemma TargetsAreDetermined(w: World, issuer: string, s: Service, total: nat, a: seq<string>, b: seq<string>)
    requires Accepts(w, issuer, s, total, a) && Accepts(w, issuer, s, total, b)
    ensures a == b
  {
    if s.targetPeers == WILDCARD {
      SortedNamesUnique(a, b, ReadyPeers(w, issuer));
    }
  }

  /** What an accepted wildcard service can be published to, given the sorted names of the Ready peers. */
  lemma TargetsAreReady(w: World, issuer: string, s: Service, total: nat, targets: seq<string>)
    requires s.targetPeers == WILDCARD && SortedNames(targets, ReadyPeers(w, issuer))
    ensures forall other :: Accepts(w, issuer, s, total, other) ==> other == targets != []
  {
    forall other | Accepts(w, issuer, s, total, other) ensures other == targets != [] {
      SortedNamesUnique(targets, other, ReadyPeers(w, issuer));
    }
  }

  /** One refused target refuses the service. */
  lemma TargetRefused(w: World, issuer: string, s: Service, total: nat, targets: seq<string>, i: nat)
    requires i < |targets| && s.policyRef in w.policies && !TargetAllowed(w, issuer, w.policies[s.policyRef], targets[i])
    requires if s.targetPeers == WILDCARD then SortedNames(targets, ReadyPeers(w, issuer)) else targets == s.targetPeers
    ensures forall other :: !Accepts(w, issuer, s, total, other)
  {
    assert targets[i] in targets;
    if s.targetPeers == WILDCARD {
      TargetsAreReady(w, issuer, s, total, targets);
    }
  }

  /** Here and below `outage` says whether calls to the API server may fail. */
  method ExpandWildcard(w: World, issuer: string, outage: bool) returns (r: Result<seq<string>, SyncError>)
    ensures r.Ok? ==> SortedNames(r.value, ReadyPeers(w, issuer))
    ensures r.Err? ==> outage && r.error == ApiFailure
  {
    var fails := Fails(outage);
    if fails { return Err(ApiFailure); }
    var ready, rest := {}, w.peers.Keys;
    while rest != {}
      invariant rest <= w.peers.Keys
      invariant forall n :: n in ready <==> n in ReadyPeers(w, issuer) && n !in rest
      decreases |rest|
    {
      var n :| n in rest;
      var peer := w.peers[n];
      if peer.state == Ready && !peer.suspended && (issuer == peer.localRef || issuer == peer.remoteRef) {
        ready := ready + {n};
      }
      rest := rest - {n};
    }
    assert ready == ReadyPeers(w, issuer);
    var targets := Sort(ready);
    return Ok(targets);
  }

  method PortAllowed(ports: seq<Option<int>>, port: int) returns (allowed: bool)
    ensures allowed <==> ports == [] || Some(port) in ports
  {
    allowed := ports == [];
    for i := 0 to |ports|
      invariant allowed <==> ports == [] || Some(port) in ports[..i]
    {
      if ports[i].Some? && ports[i].value == port { allowed := true; }
    }
    assert ports[..|ports|] == ports;
  }

  /** The gate: a service passes exactly when `Accepts` holds, unless the API server could not be asked. */
  method CheckService(w: World, issuer: string, s: Service, total: nat, outage: bool) returns (r: Result<seq<string>, SyncError>)
    ensures r.Ok? ==> Accepts(w, issuer, s, total, r.value)
    ensures r.Err? ==> (r.error == ApiFailure && outage)
                       || (r.error == Refused && forall targets :: !Accepts(w, issuer, s, total, targets))
  {
    if s.name == "" || s.namespace == "" || s.policyRef == "" || s.port < 1 || |s.targetPeers| == 0 { return Err(Refused); }
    var fails := Fails(outage);
    if fails { return Err(ApiFailure); }
    if s.policyRef !in w.policies { return Err(Refused); }
    var policy := w.policies[s.policyRef];
    if policy.maxAdvertisements.Some? && policy.maxAdvertisements.value >= 0 && total > policy.maxAdvertisements.value {
      return Err(Refused);
    }
    var targets := s.targetPeers;
    if |targets| == 1 && targets[0] == "*" {
      if !policy.matchAllReady { return Err(Refused); }
      var expanded := ExpandWildcard(w, issuer, outage);
      if expanded.Err? { return Err(expanded.error); }
      targets := expanded.value;
      if |targets| == 0 {
        TargetsAreReady(w, issuer, s, total, targets);
        return Err(Refused);
      }
    }
    var allowed := PortAllowed(policy.ports, s.port);
    if s.serviceClass !in policy.serviceClasses || s.protocol !in policy.protocols || "export" !in policy.directions || !allowed {
      return Err(Refused);
    }
    for i := 0 to |targets|
      invariant forall k | 0 <= k < i :: TargetAllowed(w, issuer, policy, targets[k])
    {
      fails := Fails(outage);
      if fails { return Err(ApiFailure); }
      var t := targets[i];
      if (!policy.matchAllReady && t !in policy.matchNames) || t !in w.peers
         || (issuer != w.peers[t].localRef && issuer != w.peers[t].remoteRef) {
        TargetRefused(w, issuer, s, total, targets, i);
        return Err(Refused);
      }
    }
    return Ok(targets);
  }

  // ---------------------------------------------------------------------------------------------
  // What a snapshot writes
  // ---------------------------------------------------------------------------------------------

  type Ads = map<string, Advertisement>
  type Imports = map<string, Import>

  /** What an advertisement says when `p` publishes service `s` to `targets`. */
  predicate Says(ad: Advertisement, p: Publisher, s: Service, targets: seq<string>) {
    && ad.publisherLabel == ad.publisherRef == p.issuer
    && ad.publishedAt == WholeSeconds(p.now)
    && ad.serviceIdentity == "spiffe://" + p.identity.trustDomain + "/ns/" + s.namespace + "/service/" + s.name
    && ad.serviceClass == s.serviceClass && ad.protocol == s.protocol && ad.port == s.port
    && ad.localService == s.name
    && ad.gatewayEndpoints == p.identity.gatewayEndpoints
    && ad.targetPeers == targets
    && ad.ttlSeconds == s.ttlSeconds && ad.generation == s.generation && ad.policyRef == s.policyRef
    && !ad.revoked
  }

  function Record(p: Publisher, s: Service, targets: seq<string>): Advertisement {
    Advertisement(p.issuer, WholeSeconds(p.now), p.issuer,
      "spiffe://" + p.identity.trustDomain + "/ns/" + s.namespace + "/service/" + s.name,
      s.serviceClass, s.protocol, s.port, s.name, p.identity.gatewayEndpoints, targets,
      s.ttlSeconds, s.generation, s.policyRef, false)
  }

  /** The first `|targets|` services written in order. */
  function Publish(before: Ads, p: Publisher, services: seq<Service>, targets: seq<seq<string>>): Ads
    requires |targets| <= |services|
    decreases |targets|
  {
    if targets == [] then before
    else
      var k := |targets| - 1;
      Publish(before, p, services, targets[..k])[AdName(p.issuer, services[k]) := Record(p, services[k], targets[k])]
  }

  /** Every advertisement named in `hit` revoked. */
  function Revoke(ads: Ads, hit: set<string>): (r: Ads)
    ensures r.Keys == ads.Keys
  {
    map n | n in ads :: if n in hit then ads[n].(revoked := true) else ads[n]
  }

  function Labelled(ads: Ads, issuer: string): set<string> {
    set n | n in ads && ads[n].publisherLabel == issuer
  }

  /** The services written so far have passed the gate, each in the world it was checked in. */
  ghost predicate AllAccepted(issuer: string, services: seq<Service>, worlds: seq<World>, targets: seq<seq<string>>)
    requires |targets| <= |services| == |worlds|
  {
    forall i | 0 <= i < |targets| :: Accepts(worlds[i], issuer, services[i], |services|, targets[i])
  }

  /** The advertisements after a successful synchronisation whose revocations of `missed` failed to commit. */
  function Outcome(before: Ads, p: Publisher, services: seq<Service>, targets: seq<seq<string>>, missed: set<string>): Ads
    requires |targets| == |services|
  {
    var written := Publish(before, p, services, targets);
    Revoke(written, Labelled(written, p.issuer) - Names(p.issuer, services) - missed)
  }

  /** `i` is the last of the first `k` services that is called `n`. */
  predicate LastNamed(issuer: string, services: seq<Service>, k: nat, n: string, i: nat)
    requires k <= |services|
  {
    i < k && AdName(issuer, services[i]) == n && forall j | i < j < k :: AdName(issuer, services[j]) != n
  }

  /** Whatever `after` has more than `before` imports advertisement `name` for one of `peers`. */
  ghost predicate ImportsOf(before: Imports, after: Imports, name: string, peers: seq<string>) {
    forall m <- after :: m in before || exists t | t in peers :: m == ImportName(name, t) && after[m] == Import(name, t, m)
  }

  /** Imports are only ever added, each for a service and a target of the snapshot. */
  ghost predicate ImportsFollow(before: Imports, after: Imports, issuer: string, services: seq<Service>, targets: seq<seq<string>>)
    requires |targets| <= |services|
  {
    && (forall m <- before :: m in after && after[m] == before[m])
    && (forall m <- after :: m in before || exists i, t | 0 <= i < |targets| && t in targets[i] ::
        var name := AdName(issuer, services[i]);
        m == ImportName(name, t) && after[m] == Import(name, t, m))
  }

  /** Every target of every service has its import. */
  ghost predicate ImportsComplete(imports: Imports, issuer: string, services: seq<Service>, targets: seq<seq<string>>)
    requires |targets| <= |services|
  {
    forall i, t | 0 <= i < |targets| && t in targets[i] :: ImportName(AdName(issuer, services[i]), t) in imports
  }

  /** The advertisements and imports of one tenant in the Hub's API server. */
  class AdvertisementStore {
    var ads: Ads
    var imports: Imports

    /** The create-if-absent loop over the targets of one service. */
    method CreateImports(name: string, peers: seq<string>, outage: bool) returns (r: Result<(), SyncError>)
      modifies this`imports
      ensures forall m <- old(imports) :: m in imports && imports[m] == old(imports)[m]
      ensures ImportsOf(old(imports), imports, name, peers)
      ensures r.Err? ==> r.error == ApiFailure && outage
      ensures r.Ok? ==> forall t <- peers :: ImportName(name, t) in imports
    {
      for i := 0 to |peers|
        invariant forall m <- old(imports) :: m in imports && imports[m] == old(imports)[m]
        invariant ImportsOf(old(imports), imports, name, peers)
        invariant forall k | 0 <= k < i :: ImportName(name, peers[k]) in imports
      {
        var fails := Fails(outage);
        if fails { return Err(ApiFailure); }
        var m := ImportName(name, peers[i]);
        if m !in imports {
          imports := imports[m := Import(name, peers[i], m)];
        }
      }
      return Ok(());
    }

    /** The sweep: a write that fails is ignored and its advertisement reported in `missed`. */
    method RevokeOthers(issuer: string, seen: set<string>, outage: bool) returns (r: Result<(), SyncError>, ghost missed: set<string>)
      modifies this`ads
      ensures r.Err? ==> r.error == ApiFailure && outage && ads == old(ads)
      ensures missed != {} ==> outage
      ensures r.Ok? ==> ads == Revoke(old(ads), Labelled(old(ads), issuer) - seen - missed)
    {
      hide Revoke, Labelled;
      missed := {};
      var fails := Fails(outage);
      if fails { return Err(ApiFailure), missed; }
      RevokeNone(ads);
      LabelledExist(ads, issuer);
      var todo := Labelled(ads, issuer);
      ghost var all, hit := todo, {};
      while todo != {}
        invariant missed !! todo && todo <= all <= ads.Keys
        invariant hit == all - seen - todo - missed
        invariant ads == Revoke(old(ads), hit)
        invariant missed != {} ==> outage
        decreases |todo|
      {
        var n :| n in todo;
        SweepStep(all, seen, todo, missed, n);
        todo := todo - {n};
        if n !in seen {
          fails := Fails(outage);
          if !fails {
            RevokeOne(old(ads), hit, n);
            ads := ads[n := ads[n].(revoked := true)];
            hit := hit + {n};
          } else {
            missed := missed + {n};
          }
        }
      }
      assert hit == all - seen - missed;
      return Ok(()), missed;
    }

    /** One round of the loop over services; `written` holds the targets when the advertisement was written. */
    method PublishService(p: Publisher, s: Service, w: World, total: nat, outage: bool)
      returns (r: Result<(), SyncError>, ghost written: Option<seq<string>>)
      modifies this
      ensures written.None? ==> r.Err? && ads == old(ads) && imports == old(imports)
      ensures written.Some? ==> Accepts(w, p.issuer, s, total, written.value)
      ensures written.Some? ==> AdName(p.issuer, s) in ads && Says(ads[AdName(p.issuer, s)], p, s, written.value)
      ensures written.Some? ==> ads == old(ads)[AdName(p.issuer, s) := ads[AdName(p.issuer, s)]]
      ensures forall m <- old(imports) :: m in imports && imports[m] == old(imports)[m]
      ensures written.Some? ==> ImportsOf(old(imports), imports, AdName(p.issuer, s), written.value)
      ensures r.Ok? ==> written.Some? && forall t <- written.value :: ImportName(AdName(p.issuer, s), t) in imports
      ensures r == Err(Refused) ==> written.None? && forall t :: !Accepts(w, p.issuer, s, total, t)
      ensures r.Err? && r != Err(Refused) ==> r == Err(ApiFailure) && outage
    {
      written := None;
      var checked := CheckService(w, p.issuer, s, total, outage);
      if checked.Err? { return Err(checked.error), written; }
      var fails := Fails(outage);
      if fails { return Err(ApiFailure), written; }
      var name := AdName(p.issuer, s);
      ads := ads[name := Record(p, s, checked.value)];
      written := Some(checked.value);
      fails := Fails(outage);
      if fails { return Err(ApiFailure), written; }
      r := CreateImports(name, checked.value, outage);
    }

    /** The loop over the services; `seen` collects the generated names. */
    method PublishServices(p: Publisher, services: seq<Service>, worlds: seq<World>, outage: bool)
      returns (r: Result<(), SyncError>, seen: set<string>, ghost targets: seq<seq<string>>)
      requires |worlds| == |services|
      modifies this
      ensures |targets| <= |services| && ads == Publish(old(ads), p, services, targets)
      ensures AllAccepted(p.issuer, services, worlds, targets)
      ensures ImportsFollow(old(imports), imports, p.issuer, services, targets)
      ensures r == Err(Refused) ==> |targets| < |services|
      ensures r == Err(Refused) ==> forall t :: !Accepts(worlds[|targets|], p.issuer, services[|targets|], |services|, t)
      ensures r.Err? && r != Err(Refused) ==> r == Err(ApiFailure) && outage
      ensures r.Ok? ==> |targets| == |services| && seen == Names(p.issuer, services)
      ensures r.Ok? ==> ImportsComplete(imports, p.issuer, services, targets)
    {
      hide AllAccepted, Accepts, AdName, Record, Says, ImportsFollow, ImportsOf, Revoke, ImportName;
      targets, seen := [], {};
      NothingImported(imports, p.issuer, services);
      NothingAccepted(p.issuer, services, worlds);
      for i := 0 to |services|
        invariant |targets| == i
        invariant seen == Names(p.issuer, services[..i])
        invariant AllAccepted(p.issuer, services, worlds, targets)
        invariant ads == Publish(old(ads), p, services, targets)
        invariant ImportsFollow(old(imports), imports, p.issuer, services, targets)
        invariant ImportsComplete(imports, p.issuer, services, targets)
      {
        label L:
        ghost var written;
        r, written := PublishService(p, services[i], worlds[i], |services|, outage);
        if written.Some? {
          assert (targets + [written.value])[..i] == targets;
          SaysIsRecord(ads[AdName(p.issuer, services[i])], p, services[i], written.value);
          OneMoreAccepted(p.issuer, services, worlds, targets, written.value);
          ImportsExtended(old(imports), old@L(imports), imports, p.issuer, services, targets, written.value);
          targets := targets + [written.value];
        }
        if r.Err? { return r, seen, targets; }
        seen := seen + {AdName(p.issuer, services[i])};
        OneMoreName(p.issuer, services, i);
      }
      assert services[..|services|] == services;
      r := Ok(());
    }

    /** `worlds[i]` is what the API server answers while service i is handled; `targets` lists the targets of the services written. */
    method SyncAdvertisements(issuer: string, identity: Option<Identity>, services: seq<Service>, worlds: seq<World>, now: Time, outage: bool)
      returns (r: Result<(), SyncError>, ghost targets: seq<seq<string>>, ghost missed: set<string>)
      requires |worlds| == |services|
      modifies this
      ensures |targets| <= |services|
      ensures identity.None? ==> r.Err? && ads == old(ads) && imports == old(imports)
      ensures AllAccepted(issuer, services, worlds, targets)
      ensures r.Err? && identity.Some? ==> ads == Publish(old(ads), Publisher(issuer, identity.value, now), services, targets)
      ensures r == Err(Refused) ==> |targets| < |services|
      ensures r == Err(Refused) ==> forall t :: !Accepts(worlds[|targets|], issuer, services[|targets|], |services|, t)
      ensures r.Err? && r != Err(Refused) ==> (r == Err(UnknownPublisher) && identity.None?) || (r == Err(ApiFailure) && outage)
      ensures missed != {} ==> outage
      ensures r.Ok? ==> identity.Some? && |targets| == |services|
      ensures r.Ok? ==> ads == Outcome(old(ads), Publisher(issuer, identity.value, now), services, targets, missed)
      ensures ImportsFollow(old(imports), imports, issuer, services, targets)
      ensures r.Ok? ==> ImportsComplete(imports, issuer, services, targets)
    {
      hide AllAccepted, Accepts, AdName, Record, Says, ImportsFollow, ImportsOf, Revoke, ImportName, Publish;
      targets, missed := [], {};
      NothingImported(imports, issuer, services);
      NothingAccepted(issuer, services, worlds);
      NothingPublished(ads, services);
      var fails := Fails(outage);
      if fails { return Err(ApiFailure), targets, missed; }
      if identity.None? { return Err(UnknownPublisher), targets, missed; }
      var seen;
      r, seen, targets := PublishServices(Publisher(issuer, identity.value, now), services, worlds, outage);
      if r.Ok? {
        r, missed := RevokeOthers(issuer, seen, outage);
      }
    }
  }

  lemma SaysIsRecord(ad: Advertisement, p: Publisher, s: Service, targets: seq<string>)
    ensures Says(ad, p, s, targets) <==> ad == Record(p, s, targets)
  {
  }

  lemma LabelledExist(ads: Ads, issuer: string)
    ensures Labelled(ads, issuer) <= ads.Keys
  {
  }

  lemma SweepStep(all: set<string>, seen: set<string>, todo: set<string>, missed: set<string>, n: string)
    requires n in todo && todo <= all && missed !! todo
    ensures n in seen ==> all - seen - (todo - {n}) - missed == all - seen - todo - missed
    ensures n !in seen ==> all - seen - (todo - {n}) - missed == all - seen - todo - missed + {n}
    ensures n !in seen ==> all - seen - (todo - {n}) - (missed + {n}) == all - seen - todo - missed
  {
  }

  lemma NothingPublished(ads: Ads, services: seq<Service>)
    ensures forall p :: Publish(ads, p, services, []) == ads
  {
  }

  lemma NothingAccepted(issuer: string, services: seq<Service>, worlds: seq<World>)
    requires |services| == |worlds|
    ensures AllAccepted(issuer, services, worlds, [])
  {
  }

  lemma OneMoreAccepted(issuer: string, services: seq<Service>, worlds: seq<World>, done: seq<seq<string>>, t: seq<string>)
    requires |done| < |services| == |worlds| && AllAccepted(issuer, services, worlds, done)
    requires Accepts(worlds[|done|], issuer, services[|done|], |services|, t)
    ensures AllAccepted(issuer, services, worlds, done + [t])
  {
  }

  lemma OneMoreName(issuer: string, services: seq<Service>, i: nat)
    requires i < |services|
    ensures Names(issuer, services[..i + 1]) == Names(issuer, services[..i]) + {AdName(issuer, services[i])}
  {
    assert services[..i + 1] == services[..i] + [services[i]];
  }

  lemma RevokeNone(ads: Ads)
    ensures Revoke(ads, {}) == ads
  {
  }

  lemma RevokeOne(ads: Ads, hit: set<string>, n: string)
    requires n in ads
    ensures Revoke(ads, hit + {n}) == Revoke(ads, hit)[n := Revoke(ads, hit)[n].(revoked := true)]
  {
  }

  lemma NothingImported(imports: Imports, issuer: string, services: seq<Service>)
    ensures ImportsFollow(imports, imports, issuer, services, [])
  {
  }

  lemma ImportsExtended(
    before: Imports, middle: Imports, after: Imports, issuer: string, services: seq<Service>, done: seq<seq<string>>, t: seq<string>)
    requires |done| < |services| && ImportsFollow(before, middle, issuer, services, done)
    requires forall m <- middle :: m in after && after[m] == middle[m]
    requires ImportsOf(middle, after, AdName(issuer, services[|done|]), t)
    ensures ImportsFollow(before, after, issuer, services, done + [t])
  {
    var more := done + [t];
    assert more[|done|] == t && forall i | 0 <= i < |done| :: more[i] == done[i];
  }

  // ---------------------------------------------------------------------------------------------
  // What the written state means
  // ---------------------------------------------------------------------------------------------

  /** Under each generated name stands the record of the last service so named. */
  lemma {:induction false} LastPublished(before: Ads, p: Publisher, services: seq<Service>, targets: seq<seq<string>>, n: string, i: nat)
    requires |targets| <= |services| && LastNamed(p.issuer, services, |targets|, n, i)
    ensures var after := Publish(before, p, services, targets);
            n in after && Says(after[n], p, services[i], targets[i])
    decreases |targets|
  {
    hide AdName, Record, Says;
    var k := |targets| - 1;
    if i < k {
      LastPublished(before, p, services, targets[..k], n, i);
    } else {
      SaysIsRecord(Record(p, services[k], targets[k]), p, services[k], targets[k]);
    }
  }

  /** Every other name is untouched. */
  lemma {:induction false} NotPublished(before: Ads, p: Publisher, services: seq<Service>, targets: seq<seq<string>>, n: string)
    requires |targets| <= |services| && n !in Names(p.issuer, services[..|targets|])
    ensures var after := Publish(before, p, services, targets);
            (n in after <==> n in before) && (n in after ==> after[n] == before[n])
    decreases |targets|
  {
    hide AdName, Record;
    if targets != [] {
      var k := |targets| - 1;
      assert services[..|targets|] == services[..k] + [services[k]];
      NotPublished(before, p, services, targets[..k], n);
    }
  }

  lemma {:induction false} LastNamedExists(issuer: string, services: seq<Service>, k: nat, n: string) returns (i: nat)
    requires k <= |services| && n in Names(issuer, services[..k])
    ensures i < k && LastNamed(issuer, services, k, n, i)
  {
    hide AdName;
    if AdName(issuer, services[k - 1]) == n {
      i := k - 1;
    } else {
      assert services[..k] == services[..k - 1] + [services[k - 1]];
      i := LastNamedExists(issuer, services, k - 1, n);
    }
  }

  function Unrevoked(ads: Ads, issuer: string): set<string> {
    set n | n in ads && ads[n].publisherLabel == issuer && !ads[n].revoked
  }

  /** After a successful synchronisation each generated name holds the record of its last service, unrevoked. */
  lemma GeneratedAreCurrent(before: Ads, p: Publisher, services: seq<Service>, targets: seq<seq<string>>, missed: set<string>, i: nat)
    requires |targets| == |services| && i < |services| && LastNamed(p.issuer, services, |services|, AdName(p.issuer, services[i]), i)
    ensures var after := Outcome(before, p, services, targets, missed);
            var n := AdName(p.issuer, services[i]);
            n in after && Says(after[n], p, services[i], targets[i])
  {
    LastPublished(before, p, services, targets, AdName(p.issuer, services[i]), i);
  }

  /** So a wildcard service is stored with exactly the ascending names of the publisher's Ready, unsuspended peers in the world it was checked in. */
  lemma WildcardsAreStoredExpanded(
    before: Ads, p: Publisher, services: seq<Service>, worlds: seq<World>, targets: seq<seq<string>>, missed: set<string>, i: nat)
    requires |targets| == |services| == |worlds| && AllAccepted(p.issuer, services, worlds, targets)
    requires i < |services| && LastNamed(p.issuer, services, |services|, AdName(p.issuer, services[i]), i) && services[i].targetPeers == ["*"]
    ensures var after, n := Outcome(before, p, services, targets, missed), AdName(p.issuer, services[i]);
            && n in after && after[n].targetPeers != []
            && SortedNames(after[n].targetPeers,
                 set q | q in worlds[i].peers && worlds[i].peers[q].state == Ready && !worlds[i].peers[q].suspended
                         && (p.issuer == worlds[i].peers[q].localRef || p.issuer == worlds[i].peers[q].remoteRef))
  {
    hide AdName, Outcome;
    GeneratedAreCurrent(before, p, services, targets, missed, i);
    assert Accepts(worlds[i], p.issuer, services[i], |services|, targets[i]);
    assert ReadyPeers(worlds[i], p.issuer) ==
      set q | q in worlds[i].peers && worlds[i].peers[q].state == Ready && !worlds[i].peers[q].suspended
              && (p.issuer == worlds[i].peers[q].localRef || p.issuer == worlds[i].peers[q].remoteRef);
  }

  /** The publisher's unrevoked advertisements are exactly the generated names, but for revocations that failed to commit. */
  lemma UnrevokedAreGenerated(before: Ads, p: Publisher, services: seq<Service>, targets: seq<seq<string>>, missed: set<string>)
    requires |targets| == |services|
    ensures var unrevoked := Unrevoked(Outcome(before, p, services, targets, missed), p.issuer);
            Names(p.issuer, services) <= unrevoked <= Names(p.issuer, services) + missed
    ensures missed == {} ==> Unrevoked(Outcome(before, p, services, targets, missed), p.issuer) == Names(p.issuer, services)
  {
    assert services[..|services|] == services;
    forall n | n in Names(p.issuer, services) ensures n in Unrevoked(Outcome(before, p, services, targets, missed), p.issuer) {
      var i := LastNamedExists(p.issuer, services, |services|, n);
      GeneratedAreCurrent(before, p, services, targets, missed, i);
    }
  }

  lemma {:induction false} NamesAreFew(issuer: string, services: seq<Service>)
    ensures |Names(issuer, services)| <= |services|
  {
    if services != [] {
      var k := |services| - 1;
      NamesAreFew(issuer, services[..k]);
      assert services == services[..k] + [services[k]];
      assert Names(issuer, services) == Names(issuer, services[..k]) + {AdName(issuer, services[k])};
    }
  }

  /** No policy that a service of the snapshot refers to has its quota exceeded. */
  lemma QuotaHolds(before: Ads, p: Publisher, services: seq<Service>, worlds: seq<World>, targets: seq<seq<string>>, i: nat)
    requires |targets| == |services| == |worlds| && i < |services| && AllAccepted(p.issuer, services, worlds, targets)
    ensures var max := worlds[i].policies[services[i].policyRef].maxAdvertisements;
            max.Some? && max.value >= 0 ==>
              |Unrevoked(Outcome(before, p, services, targets, {}), p.issuer)| <= max.value
  {
    UnrevokedAreGenerated(before, p, services, targets, {});
    NamesAreFew(p.issuer, services);
  }

  /** A name the snapshot does not generate keeps its object, unless that is labelled with the publisher, and then only `revoked` changes. */
  lemma OthersUntouched(before: Ads, p: Publisher, services: seq<Service>, targets: seq<seq<string>>, missed: set<string>, n: string)
    requires |targets| == |services| && n !in Names(p.issuer, services)
    ensures var after := Outcome(before, p, services, targets, missed);
            && (n in after <==> n in before)
            && (n in before ==>
                 after[n] == if before[n].publisherLabel == p.issuer && n !in missed then before[n].(revoked := true) else before[n])
  {
    assert services[..|services|] == services;
    NotPublished(before, p, services, targets, n);
  }

  /** Another publisher's advertisement keeps its record through a successful synchronisation exactly when its name is not generated. */
  lemma OtherPublishersKeepIff(before: Ads, p: Publisher, services: seq<Service>, targets: seq<seq<string>>, missed: set<string>, n: string)
    requires |targets| == |services| && n in before && before[n].publisherLabel != p.issuer
    ensures var after := Outcome(before, p, services, targets, missed);
            n in after && (after[n] == before[n] <==> n !in Names(p.issuer, services))
  {
    hide AdName, Publish, Revoke;
    if n in Names(p.issuer, services) {
      assert services[..|services|] == services;
      var i := LastNamedExists(p.issuer, services, |services|, n);
      GeneratedAreCurrent(before, p, services, targets, missed, i);
    } else {
      OthersUntouched(before, p, services, targets, missed, n);
    }
  }

  /** A synchronisation that stops early revokes nothing: each object is the one from before or the record of a service that was written. */
  lemma EarlyStopRevokesNothing(before: Ads, p: Publisher, services: seq<Service>, targets: seq<seq<string>>, n: string)
    requires |targets| <= |services| && n in Publish(before, p, services, targets)
    ensures var after := Publish(before, p, services, targets);
            || (n in before && after[n] == before[n])
            || exists i | 0 <= i < |targets| ::
                 AdName(p.issuer, services[i]) == n && Says(after[n], p, services[i], targets[i])
  {
    if n in Names(p.issuer, services[..|targets|]) {
      var i := LastNamedExists(p.issuer, services, |targets|, n);
      LastPublished(before, p, services, targets, n, i);
    } else {
      NotPublished(before, p, services, targets, n);
    }
  }

  /** Every wildcard target read from a reachable Hub state is a peer that both of its identities confirmed. */
  lemma WildcardTargetsAreConfirmed(schedule: seq<Step>, tenant: string, w: World, issuer: string, s: Service, total: nat, targets: seq<string>, t: string)
    requires forall n <- w.peers :: Key(tenant, n) in Exec(schedule).peers.objects
                                    && Exec(schedule).peers.objects[Key(tenant, n)].value == w.peers[n]
    requires Accepts(w, issuer, s, total, targets) && s.targetPeers == WILDCARD && t in targets
    ensures ControlTheorems.BothConfirmed(Exec(schedule), Key(tenant, t)) && ControlTheorems.BothReceived(schedule, Key(tenant, t))
    ensures !w.peers[t].suspended && Member(issuer, w.peers[t])
  {
    assert t in ReadyPeers(w, issuer);
    ControlTheorems.ReadyMeansBothConfirmed(schedule, Key(tenant, t));
  }
}
