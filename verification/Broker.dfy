/** The credential broker: opaque references, the Secrets they name and the two proxy routes. */
module Broker {
  import opened Values
  import opened Protocol
  import opened Strings
  import opened ObjectNames

  const REFERENCE_PREFIX: string := "credential://among-clusters/"
  const BEARER: string := "Bearer "
  const EXPLICIT: string := "/k8s/"

  /** The reference `store` answers with. */
  function Reference(tenant: string, grant: string): string {
    REFERENCE_PREFIX + tenant + "/" + grant
  }

  /** Tenant, grant and, unless it is empty, the remaining path; and whether the opaque route was taken. */
  function ProxyParts(path: string, authorization: string): (seq<string>, bool) {
    if EXPLICIT <= path then (SplitN(TrimPrefix(path, EXPLICIT), 3), false)
    else
      var prefix := BEARER + REFERENCE_PREFIX;
      if !(prefix <= authorization) then ([], true)
      else
        var grant := Split(TrimPrefix(authorization, prefix));
        if |grant| != 2 || grant[0] == "" || grant[1] == "" then ([], true)
        else
          var rest := TrimPrefix(path, "/");
          if rest == "" then (grant, true) else ([grant[0], grant[1], rest], true)
  }

  /** What a stored envelope decrypts to. */
  datatype Credential = Credential(token: string, server: string, expiresAt: Time)

  /** The broker's Secrets by name; `None` is an envelope that does not decrypt under the broker's key. */
  type Secrets = map<string, Option<Credential>>

  /** The name of the Secret behind a tenant and a grant. */
  function SecretName(tenant: string, grant: string): string {
    ObjectName(tenant + "-" + grant)
  }

  datatype ProxyAnswer =
    | NotFound
    | Unauthorized
    | CredentialUnavailable
    | CredentialExpired
    | InvalidTarget
    | Forward(tenant: string, grant: string, path: string, credential: Credential)

  /**
   `userAllowed` is the outcome of the token and access reviews, consulted only on the explicit route; `parses` says
   whether the credential's server is a URL.
   */
  function Proxy(path: string, authorization: string, userAllowed: bool, secrets: Secrets, now: Time, parses: bool): ProxyAnswer {
    var (parts, opaqueRoute) := ProxyParts(path, authorization);
    if |parts| < 2 then NotFound
    else if authorization != BEARER + Reference(parts[0], parts[1]) && (opaqueRoute || !userAllowed) then Unauthorized
    else if SecretName(parts[0], parts[1]) !in secrets then CredentialUnavailable
    else
      match secrets[SecretName(parts[0], parts[1])]
      case None => CredentialExpired
      case Some(credential) =>
        if !(now < credential.expiresAt) then CredentialExpired
        else if !parses then InvalidTarget
        else Forward(parts[0], parts[1], if |parts| == 3 then "/" + parts[2] else "/", credential)
  }

  /** The broker holds a live credential for the pair, under whatever Secret name the pair has. */
  predicate Serves(secrets: Secrets, tenant: string, grant: string, credential: Credential, now: Time) {
    && SecretName(tenant, grant) in secrets && secrets[SecretName(tenant, grant)] == Some(credential)
    && now < credential.expiresAt
  }

  predicate Segment(s: string) {
    s != "" && SlashFree(s)
  }

  lemma PairJoins(a: string, b: string)
    ensures Join([a, b]) == a + "/" + b
  {
    assert [a, b][1..] == [b];
  }

  lemma TripleJoins(a: string, b: string, c: string)
    ensures Join([a, b, c]) == a + "/" + b + "/" + c
  {
    assert [a, b, c][1..] == [b, c];
    PairJoins(b, c);
  }

  lemma ReferenceSplits(tenant: string, grant: string)
    requires SlashFree(tenant) && SlashFree(grant)
    ensures var prefix := BEARER + REFERENCE_PREFIX;
            var header := BEARER + Reference(tenant, grant);
            prefix <= header && Split(TrimPrefix(header, prefix)) == [tenant, grant]
  {
    var prefix := BEARER + REFERENCE_PREFIX;
    var header := BEARER + Reference(tenant, grant);
    assert header == prefix + (tenant + "/" + grant);
    assert header[|prefix|..] == tenant + "/" + grant;
    SplitPair(tenant, grant);
  }

  lemma Reassociate(a: string, b: string, tenant: string, grant: string)
    ensures a + (b + tenant + "/" + grant) == (a + b) + (tenant + "/" + grant)
  {
  }

  /** A bearer header that splits into two nonempty segments is the reference of those two. */
  lemma HeaderRebuilt(authorization: string)
    requires BEARER + REFERENCE_PREFIX <= authorization
    ensures var pair := Split(TrimPrefix(authorization, BEARER + REFERENCE_PREFIX));
            && (forall p <- pair :: SlashFree(p))
            && (|pair| == 2 ==> authorization == BEARER + Reference(pair[0], pair[1]))
  {
    var prefix := BEARER + REFERENCE_PREFIX;
    var rest := TrimPrefix(authorization, prefix);
    var pair := Split(rest);
    JoinSplit(rest);
    assert authorization == prefix + rest;
    if |pair| == 2 {
      assert pair == [pair[0], pair[1]];
      PairJoins(pair[0], pair[1]);
      Reassociate(BEARER, REFERENCE_PREFIX, pair[0], pair[1]);
    }
  }

  /** Whatever the opaque route takes apart is a reference, and tenant, grant and path rebuild the request. */
  lemma OpaqueParts(path: string, authorization: string)
    requires "/" <= path && !(EXPLICIT <= path)
    ensures var (parts, opaqueRoute) := ProxyParts(path, authorization);
      && opaqueRoute
      && (parts == [] ||
          (&& 2 <= |parts| <= 3 && Segment(parts[0]) && Segment(parts[1])
           && authorization == BEARER + Reference(parts[0], parts[1])
           && path == if |parts| == 3 then "/" + parts[2] else "/"))
  {
    hide Reference, Split;
    assert path == "/" + path[1..];
    if BEARER + REFERENCE_PREFIX <= authorization {
      HeaderRebuilt(authorization);
    }
  }

  /**
   On the opaque route, a request is forwarded for a tenant, a grant, a path and a credential exactly when it carries
   the reference issued for the two and that very path, and the broker holds that credential for them, unexpired.
   */
  lemma OpaqueRoundTrip(
    path: string, authorization: string, tenant: string, grant: string, forwarded: string, credential: Credential,
    userAllowed: bool, secrets: Secrets, now: Time, parses: bool)
    requires "/" <= path && !(EXPLICIT <= path)
    ensures Proxy(path, authorization, userAllowed, secrets, now, parses) == Forward(tenant, grant, forwarded, credential) <==>
            && authorization == BEARER + Reference(tenant, grant) && Segment(tenant) && Segment(grant) && forwarded == path
            && Serves(secrets, tenant, grant, credential, now) && parses
  {
    hide SecretName, Reference, Split;
    if authorization == BEARER + Reference(tenant, grant) && Segment(tenant) && Segment(grant) {
      OpaqueAnswers(path, tenant, grant, userAllowed, secrets, now, parses);
      hide Proxy;
    } else {
      OpaqueParts(path, authorization);
      hide ProxyParts;
    }
  }

  /** The rebuilt header equals the supplied one: the opaque route is never answered with "unauthorized". */
  lemma OpaqueNeverUnauthorized(path: string, authorization: string, userAllowed: bool, secrets: Secrets, now: Time, parses: bool)
    requires "/" <= path && !(EXPLICIT <= path)
    ensures Proxy(path, authorization, userAllowed, secrets, now, parses) != Unauthorized
  {
    hide ProxyParts, Reference, SecretName;
    OpaqueParts(path, authorization);
  }

  /** On the explicit route the parts joined by slashes are the original path. */
  lemma ExplicitRoundTrip(path: string, authorization: string)
    requires EXPLICIT <= path
    ensures EXPLICIT + Join(ProxyParts(path, authorization).0) == path
  {
    JoinSplitN(TrimPrefix(path, EXPLICIT), 3);
  }

  lemma ForwardedParts(path: string, authorization: string, userAllowed: bool, secrets: Secrets, now: Time, parses: bool)
    requires EXPLICIT <= path && Proxy(path, authorization, userAllowed, secrets, now, parses).Forward?
    ensures var f, parts := Proxy(path, authorization, userAllowed, secrets, now, parses), ProxyParts(path, authorization).0;
            && 2 <= |parts| <= 3 && f.tenant == parts[0] && f.grant == parts[1]
            && f.path == (if |parts| == 3 then "/" + parts[2] else "/")
            && Serves(secrets, f.tenant, f.grant, f.credential, now)
            && (userAllowed || authorization == BEARER + Reference(f.tenant, f.grant))
  {
    hide SplitN, Reference, SecretName;
  }

  lemma PairReassociates(p: string, a: string, b: string, slash: string)
    ensures p + (a + slash + b) == p + a + slash + b
  {
  }

  lemma TripleReassociates(p: string, a: string, b: string, c: string, slash: string)
    ensures p + (a + slash + b + slash + c) == p + a + slash + b + (slash + c)
  {
  }

  lemma PartsArePath(parts: seq<string>, path: string)
    requires 2 <= |parts| <= 3 && EXPLICIT + Join(parts) == path
    ensures |parts| == 2 ==> path == EXPLICIT + parts[0] + "/" + parts[1]
    ensures |parts| == 3 ==> path == EXPLICIT + parts[0] + "/" + parts[1] + ("/" + parts[2])
  {
    hide Join;
    if |parts| == 2 {
      assert parts == [parts[0], parts[1]];
      PairJoins(parts[0], parts[1]);
      PairReassociates(EXPLICIT, parts[0], parts[1], "/");
    } else {
      assert parts == [parts[0], parts[1], parts[2]];
      TripleJoins(parts[0], parts[1], parts[2]);
      TripleReassociates(EXPLICIT, parts[0], parts[1], parts[2], "/");
    }
  }

  /**
   What the explicit route forwards is what follows the tenant and the grant in the original path, under their
   credential, and only for an admitted user or the holder of their reference.
   */
  lemma ExplicitForwardsRest(path: string, authorization: string, userAllowed: bool, secrets: Secrets, now: Time, parses: bool)
    requires EXPLICIT <= path && Proxy(path, authorization, userAllowed, secrets, now, parses).Forward?
    ensures var f := Proxy(path, authorization, userAllowed, secrets, now, parses);
            && (path == EXPLICIT + f.tenant + "/" + f.grant + f.path || (path == EXPLICIT + f.tenant + "/" + f.grant && f.path == "/"))
            && Serves(secrets, f.tenant, f.grant, f.credential, now)
            && (userAllowed || authorization == BEARER + Reference(f.tenant, f.grant))
  {
    ExplicitRoundTrip(path, authorization);
    ForwardedParts(path, authorization, userAllowed, secrets, now, parses);
    hide ProxyParts, Proxy, Join, Serves, Reference;
    PartsArePath(ProxyParts(path, authorization).0, path);
  }

  // ---------------------------------------------------------------------------------------------
  // The answer to every request
  // ---------------------------------------------------------------------------------------------

  /** The answer for a tenant and a grant, by the caller's admission, the broker's credential for the two and its server. */
  ghost predicate Answers(
    answer: ProxyAnswer, admitted: bool, tenant: string, grant: string, forwarded: string, secrets: Secrets, now: Time, parses: bool) {
    var name := SecretName(tenant, grant);
    && (!admitted ==> answer == Unauthorized)
    && (admitted && name !in secrets ==> answer == CredentialUnavailable)
    && (admitted && name in secrets && secrets[name] == None ==> answer == CredentialExpired)
    && (forall c :: admitted && name in secrets && secrets[name] == Some(c) ==>
          && (c.expiresAt <= now ==> answer == CredentialExpired)
          && (now < c.expiresAt && !parses ==> answer == InvalidTarget)
          && (now < c.expiresAt && parses ==> answer == Forward(tenant, grant, forwarded, c)))
  }

  lemma PartsAreAnswered(path: string, authorization: string, userAllowed: bool, secrets: Secrets, now: Time, parses: bool)
    requires |ProxyParts(path, authorization).0| >= 2
    ensures var (parts, opaqueRoute) := ProxyParts(path, authorization);
            Answers(
              Proxy(path, authorization, userAllowed, secrets, now, parses),
              (!opaqueRoute && userAllowed) || authorization == BEARER + Reference(parts[0], parts[1]),
              parts[0], parts[1], if |parts| == 3 then "/" + parts[2] else "/", secrets, now, parses)
  {
    hide ProxyParts, Reference, SecretName;
  }

  /** What follows the tenant and the grant is nothing or begins with a slash. */
  predicate Rest(rest: string) {
    rest == "" || rest[0] == '/'
  }

  lemma SplitOnce(a: string, b: string, n: nat)
    requires SlashFree(a) && n > 1
    ensures SplitN(a + "/" + b, n) == [a] + SplitN(b, n - 1)
  {
    var s := a + "/" + b;
    IndexOfSlash(a, b);
    assert s[..|a|] == a && s[|a| + 1..] == b;
  }

  lemma SplitNone(a: string, n: nat)
    requires SlashFree(a) && n > 0
    ensures SplitN(a, n) == [a]
  {
  }

  lemma ExplicitSplits(tenant: string, grant: string, rest: string)
    requires SlashFree(tenant) && SlashFree(grant) && Rest(rest)
    ensures SplitN(tenant + "/" + grant + rest, 3) == if rest == "" then [tenant, grant] else [tenant, grant, rest[1..]]
  {
    hide SplitN, SlashFree;
    assert tenant + "/" + grant + rest == tenant + "/" + (grant + rest);
    SplitOnce(tenant, grant + rest, 3);
    if rest == "" {
      assert grant + rest == grant;
      SplitNone(grant, 2);
    } else {
      assert grant + rest == grant + "/" + rest[1..];
      SplitOnce(grant, rest[1..], 2);
      SplitIntoOne(rest[1..]);
    }
  }

  lemma SplitIntoOne(s: string)
    ensures SplitN(s, 1) == [s]
  {
  }

  /** Every explicit request for a tenant and a grant is answered for these two, if the user is allowed or holds their reference. */
  lemma ExplicitAnswers(
    tenant: string, grant: string, rest: string, authorization: string, userAllowed: bool, secrets: Secrets, now: Time, parses: bool)
    requires SlashFree(tenant) && SlashFree(grant) && Rest(rest)
    ensures Answers(
              Proxy(EXPLICIT + (tenant + "/" + grant + rest), authorization, userAllowed, secrets, now, parses),
              userAllowed || authorization == BEARER + Reference(tenant, grant),
              tenant, grant, if rest == "" then "/" else rest, secrets, now, parses)
  {
    var tail := tenant + "/" + grant + rest;
    assert TrimPrefix(EXPLICIT + tail, EXPLICIT) == tail;
    ExplicitSplits(tenant, grant, rest);
    assert rest != "" ==> "/" + rest[1..] == rest;
    PartsAreAnswered(EXPLICIT + tail, authorization, userAllowed, secrets, now, parses);
    hide Proxy, Answers, SplitN, Reference, SecretName, SlashFree;
  }

  /** An explicit request is for a tenant and a grant, or it names no grant and is answered "not found". */
  lemma ExplicitNotFoundIff(path: string, authorization: string, userAllowed: bool, secrets: Secrets, now: Time, parses: bool)
    requires EXPLICIT <= path
    ensures Proxy(path, authorization, userAllowed, secrets, now, parses) == NotFound <==> SlashFree(path[|EXPLICIT|..])
  {
    hide Reference, SecretName;
  }

  lemma OpaqueReferenceParts(path: string, tenant: string, grant: string)
    requires "/" <= path && !(EXPLICIT <= path) && Segment(tenant) && Segment(grant)
    ensures ProxyParts(path, BEARER + Reference(tenant, grant)) ==
            (if path == "/" then [tenant, grant] else [tenant, grant, path[1..]], true)
  {
    ReferenceSplits(tenant, grant);
    hide Reference, Split;
  }

  /** Every request that carries a reference on the opaque route is answered for its tenant and grant, whatever the user is allowed. */
  lemma OpaqueAnswers(
    path: string, tenant: string, grant: string, userAllowed: bool, secrets: Secrets, now: Time, parses: bool)
    requires "/" <= path && !(EXPLICIT <= path) && Segment(tenant) && Segment(grant)
    ensures Answers(
              Proxy(path, BEARER + Reference(tenant, grant), userAllowed, secrets, now, parses),
              true, tenant, grant, path, secrets, now, parses)
  {
    var authorization := BEARER + Reference(tenant, grant);
    OpaqueReferenceParts(path, tenant, grant);
    PartsAreAnswered(path, authorization, userAllowed, secrets, now, parses);
    assert "/" + path[1..] == path;
    hide Proxy, Answers, ProxyParts, Reference, Segment;
  }

  /** Without a reference the opaque route is answered "not found". */
  lemma OpaqueNotFoundIff(path: string, authorization: string, userAllowed: bool, secrets: Secrets, now: Time, parses: bool)
    requires "/" <= path && !(EXPLICIT <= path)
    ensures Proxy(path, authorization, userAllowed, secrets, now, parses) == NotFound <==>
            !exists tenant, grant :: Segment(tenant) && Segment(grant) && authorization == BEARER + Reference(tenant, grant)
  {
    OpaqueParts(path, authorization);
    if tenant, grant :| Segment(tenant) && Segment(grant) && authorization == BEARER + Reference(tenant, grant) {
      ReferenceSplits(tenant, grant);
      hide Reference, Split, SecretName;
    } else {
      hide ProxyParts, Split, Reference, SecretName;
    }
  }

  // ---------------------------------------------------------------------------------------------
  // Which references share a Secret
  // ---------------------------------------------------------------------------------------------

  /** The first 63 tamed characters of the two joined texts agree, but for hyphens at the ends. */
  predicate Collide(t1: string, g1: string, t2: string, g2: string) {
    SameUpToHyphens(Lead(Visible(t1 + "-" + g1)), Lead(Visible(t2 + "-" + g2)))
  }

  /** Any two references share a Secret exactly when they collide. */
  lemma SecretsSharedIff(t1: string, g1: string, t2: string, g2: string)
    ensures SecretName(t1, g1) == SecretName(t2, g2) <==> Collide(t1, g1, t2, g2)
  {
    SameNameIff(t1 + "-" + g1, t2 + "-" + g2);
  }

  /** One pair is the other with some hyphen-separated pieces moved across the boundary. */
  ghost predicate Shifted(t1: string, g1: string, t2: string, g2: string) {
    exists x: string :: t2 == t1 + "-" + x && g1 == x + "-" + g2
  }

  /** The same pair, or one shifted into the other. */
  ghost predicate SameOrShifted(t1: string, g1: string, t2: string, g2: string) {
    (t1 == t2 && g1 == g2) || Shifted(t1, g1, t2, g2) || Shifted(t2, g2, t1, g1)
  }

  lemma ShiftedIfLonger(t1: string, g1: string, t2: string, g2: string)
    requires t1 + "-" + g1 == t2 + "-" + g2 && |t1| < |t2|
    ensures Shifted(t1, g1, t2, g2)
  {
    var v, x := t1 + "-" + g1, t2[|t1| + 1..];
    assert v[..|t2|] == t2 && v[..|t1|] == t1 && v[|t1|] == '-';
    assert t2[..|t1|] == t1 && t2[|t1|] == '-';
    assert t2 == t1 + "-" + x;
    assert g1 == v[|t1| + 1..] && v == t1 + "-" + (x + "-" + g2);
  }

  lemma ShiftedJoins(t1: string, g1: string, t2: string, g2: string)
    ensures Shifted(t1, g1, t2, g2) ==> t1 + "-" + g1 == t2 + "-" + g2
  {
    if Shifted(t1, g1, t2, g2) {
      var x: string :| t2 == t1 + "-" + x && g1 == x + "-" + g2;
      assert t1 + "-" + (x + "-" + g2) == (t1 + "-" + x) + "-" + g2;
    }
  }

  lemma JoinedEqualIff(t1: string, g1: string, t2: string, g2: string)
    ensures t1 + "-" + g1 == t2 + "-" + g2 <==> SameOrShifted(t1, g1, t2, g2)
  {
    hide Shifted;
    if t1 + "-" + g1 == t2 + "-" + g2 {
      if |t1| < |t2| {
        ShiftedIfLonger(t1, g1, t2, g2);
      } else if |t2| < |t1| {
        ShiftedIfLonger(t2, g2, t1, g1);
      } else {
        var v := t1 + "-" + g1;
        assert v[..|t1|] == t1 == t2 && v[|t1| + 1..] == g1 == g2;
      }
    }
    ShiftedJoins(t1, g1, t2, g2);
    ShiftedJoins(t2, g2, t1, g1);
  }

  /**
   For names that begin and end with a letter or digit: when neither joined text is cut, two references collide exactly
   when, capitals lowered and dots and underscores read as hyphens, they are the same or shifted across a hyphen; when both
   are cut, exactly when the first 63 characters agree.
   */
  lemma NamesCollideIff(t1: string, g1: string, t2: string, g2: string)
    requires Edged(t1 + "-" + g1) && Edged(t2 + "-" + g2)
    ensures |t1| + 1 + |g1| <= NAME_LIMIT && |t2| + 1 + |g2| <= NAME_LIMIT ==>
              (Collide(t1, g1, t2, g2) <==> SameOrShifted(TameAll(t1), TameAll(g1), TameAll(t2), TameAll(g2)))
    ensures |t1| + 1 + |g1| >= NAME_LIMIT && |t2| + 1 + |g2| >= NAME_LIMIT ==>
              (Collide(t1, g1, t2, g2) <==> TameAll((t1 + "-" + g1)[..NAME_LIMIT]) == TameAll((t2 + "-" + g2)[..NAME_LIMIT]))
  {
    hide ObjectName, Visible, Lead, SameUpToHyphens, TameAll, SameOrShifted;
    var a, b := t1 + "-" + g1, t2 + "-" + g2;
    SameNameIff(a, b);
    if |a| <= NAME_LIMIT && |b| <= NAME_LIMIT {
      SameShortNameIff(a, b);
      TameJoins(t1, g1);
      TameJoins(t2, g2);
      JoinedEqualIff(TameAll(t1), TameAll(g1), TameAll(t2), TameAll(g2));
    }
    if |a| >= NAME_LIMIT && |b| >= NAME_LIMIT {
      SameLongNameIff(a, b);
    }
  }

  /** Beyond the cut nothing counts, whatever the names begin with. */
  lemma LongReferencesShare(t1: string, g1: string, t2: string, g2: string)
    requires |t1| + 1 + |g1| >= NAME_LIMIT && |t2| + 1 + |g2| >= NAME_LIMIT
    requires (t1 + "-" + g1)[..NAME_LIMIT] == (t2 + "-" + g2)[..NAME_LIMIT]
    ensures SecretName(t1, g1) == SecretName(t2, g2)
  {
    var a, b := t1 + "-" + g1, t2 + "-" + g2;
    assert |a| >= NAME_LIMIT && |b| >= NAME_LIMIT;
    assert Visible(a) == TameAll(a[..NAME_LIMIT]);
    assert Visible(b) == TameAll(b[..NAME_LIMIT]);
  }
}
