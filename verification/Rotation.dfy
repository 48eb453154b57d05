/**
 SVID rotation: when the agent reissues its leaf or its root certificate, over Go's calendar arithmetic
 and certificate times in whole seconds.
 */
module Rotation {
  import opened Values
  import opened Protocol

  // ---------------------------------------------------------------------------------------------
  // The proleptic Gregorian calendar, as `time.AddDate` uses it
  // ---------------------------------------------------------------------------------------------

  const DAY: int := 24 * HOUR

  predicate Leap(year: int) {
    year % 4 == 0 && (year % 100 != 0 || year % 400 == 0)
  }

  function DaysBeforeYear(year: int): int {
    var y := year - 1;
    365 * y + y / 4 - y / 100 + y / 400
  }

  const MONTHS: seq<int> := [0, 31, 59, 90, 120, 151, 181, 212, 243, 273, 304, 334, 365]

  function DaysBeforeMonth(leap: bool, month: int): int
    requires 1 <= month <= 12
  {
    MONTHS[month - 1] + if leap && month > 2 then 1 else 0
  }

  function DaysIn(leap: bool, month: int): int
    requires 1 <= month <= 12
  {
    MONTHS[month] - MONTHS[month - 1] + if leap && month == 2 then 1 else 0
  }

  /** An instant by its UTC date and the nanoseconds since midnight. */
  datatype Civil = Civil(year: int, month: int, day: int, clock: int)

  predicate ValidCivil(c: Civil) {
    && 1 <= c.year && 1 <= c.month <= 12 && 1 <= c.day <= DaysIn(Leap(c.year), c.month) && 0 <= c.clock < DAY
  }

  function DayNumber(year: int, month: int, day: int): int
    requires 1 <= month <= 12
  {
    DaysBeforeYear(year) + DaysBeforeMonth(Leap(year), month) + day - 1
  }

  /** The instant of a date whose day may overflow its month, as after adding years to 29 February. */
  function Instant(year: int, month: int, day: int, clock: int): Time
    requires 1 <= month <= 12
  {
    DayNumber(year, month, day) * DAY + clock
  }

  /** `AddDate(years, 0, 0)`. */
  function AddYears(c: Civil, years: nat): Time
    requires ValidCivil(c)
  {
    Instant(c.year + years, c.month, c.day, c.clock)
  }

  function Now(c: Civil): Time
    requires ValidCivil(c)
  {
    AddYears(c, 0)
  }

  lemma YearLength(year: int)
    requires year >= 1
    ensures DaysBeforeYear(year + 1) - DaysBeforeYear(year) == if Leap(year) then 366 else 365
  {
    QuotientStep(year, 4);
    QuotientStep(year, 100);
    QuotientStep(year, 400);
    Divides(year);
  }

  lemma Divides(year: int)
    ensures year % 400 == 0 ==> year % 100 == 0
    ensures year % 100 == 0 ==> year % 4 == 0
  {
  }

  lemma QuotientStep(year: int, n: int)
    requires year >= 1 && (n == 4 || n == 100 || n == 400)
    ensures year / n - (year - 1) / n == if year % n == 0 then 1 else 0
  {
  }

  /** The last day of a month in the Gregorian calendar. */
  function LastDay(year: int, month: int): int {
    if month == 2 then (if year % 400 == 0 || (year % 4 == 0 && year % 100 != 0) then 29 else 28)
    else if month == 4 || month == 6 || month == 9 || month == 11 then 30
    else 31
  }

  lemma MonthLength(year: int, month: int)
    requires 1 <= month <= 12
    ensures DaysIn(Leap(year), month) == LastDay(year, month)
  {
  }

  /** Dates are numbered from 1 January of year 1, each by one more than the day before, over the ends of months and years. */
  lemma DaysAreNumbered(c: Civil)
    requires ValidCivil(c)
    ensures var n, last := DayNumber(c.year, c.month, c.day), LastDay(c.year, c.month);
            && c.day <= last
            && n + 1 == (if c.day < last then DayNumber(c.year, c.month, c.day + 1)
                         else if c.month < 12 then DayNumber(c.year, c.month + 1, 1)
                         else DayNumber(c.year + 1, 1, 1))
    ensures DayNumber(1, 1, 1) == 0
  {
    hide DaysBeforeYear;
    assert DayNumber(1, 1, 1) == 0 by { assert DaysBeforeYear(1) == 0 by { FirstYear(); } }
    MonthLength(c.year, c.month);
    YearLength(c.year);
  }

  lemma FirstYear()
    ensures DaysBeforeYear(1) == 0
  {
  }

  /** A year later it is the same date, but the first of March after 29 February where that year has none. */
  lemma AnniversaryIsDate(c: Civil, years: nat)
    requires ValidCivil(c)
    ensures var year := c.year + years;
            AddYears(c, years) ==
            if c.day <= LastDay(year, c.month) then Instant(year, c.month, c.day, c.clock) else Instant(year, 3, 1, c.clock)
  {
    hide DaysBeforeYear, Leap;
    MonthLength(c.year, c.month);
    MonthLength(c.year + years, c.month);
  }

  /** Every added year is at least 365 days long, leap days and the end of February included. */
  lemma YearAdds(c: Civil, years: nat)
    requires ValidCivil(c)
    ensures AddYears(c, years + 1) >= AddYears(c, years) + 365 * DAY
  {
    hide DayNumber;
    DaysAdd(c.year + years, c.month, c.day);
  }

  lemma DaysAdd(year: int, month: int, day: int)
    requires year >= 1 && 1 <= month <= 12
    ensures DayNumber(year + 1, month, day) >= DayNumber(year, month, day) + 365
  {
    hide DaysBeforeYear;
    YearLength(year);
  }

  lemma {:induction false} YearsAdd(c: Civil, fewer: nat, more: nat)
    requires ValidCivil(c) && fewer <= more
    ensures AddYears(c, more) >= AddYears(c, fewer) + 365 * DAY * (more - fewer)
    decreases more
  {
    if fewer < more {
      YearsAdd(c, fewer, more - 1);
      YearAdds(c, more - 1);
    }
  }

  // ---------------------------------------------------------------------------------------------
  // Certificates and the identity Secret
  // ---------------------------------------------------------------------------------------------

  datatype Certificate = Certificate(serial: nat, notBefore: Time, notAfter: Time, isCA: bool, key: PublicKey)

  /** Certificate times are encoded in whole seconds. */
  function Issue(serial: nat, notBefore: Time, notAfter: Time, isCA: bool, key: PublicKey): Certificate {
    Certificate(serial, WholeSeconds(notBefore), WholeSeconds(notAfter), isCA, key)
  }

  /** A PEM field of the Secret: empty, undecodable, or holding a certificate first. */
  datatype Pem = Absent | Garbage | Pem(certificate: Certificate)

  /** The symbolic SHA-256 of a bundle; `NoDigest` is the missing annotation. */
  datatype BundleDigest = NoDigest | Sha256(bundle: Pem)

  datatype Secret = Secret(bundle: Pem, leaf: Pem, hasKey: bool, digest: BundleDigest, generation: Option<nat>)

  datatype RotationError = InvalidBundle | InvalidRoot | KeyMismatch

  /** Random serials and the leaf key drawn by one issuance. */
  datatype Draw = Draw(rootSerial: nat, leafSerial: nat, leafKey: PublicKey)

  datatype Material = Material(leaf: Pem, bundle: Pem, digest: BundleDigest)

  predicate ExpiresBefore(pem: Pem, deadline: Time) {
    !pem.Pem? || pem.certificate.notAfter < deadline
  }

  function IssueLeaf(bundle: Pem, now: Civil, draw: Draw): Material
    requires ValidCivil(now)
  {
    var leaf := Issue(draw.leafSerial, Now(now) - MINUTE, Now(now) + 24 * HOUR, false, draw.leafKey);
    Material(Pem(leaf), bundle, Sha256(bundle))
  }

  function FromPrivateKey(key: PrivateKey, now: Civil, draw: Draw): Material
    requires ValidCivil(now)
  {
    var root := Issue(draw.rootSerial, Now(now) - MINUTE, AddYears(now, 10), true, PublicOf(key));
    IssueLeaf(Pem(root), now, draw)
  }

  function Rotate(key: PrivateKey, bundle: Pem, now: Civil, draw: Draw): Result<Material, RotationError>
    requires ValidCivil(now)
  {
    if !bundle.Pem? then Err(InvalidBundle)
    else if !bundle.certificate.isCA then Err(InvalidRoot)
    else if bundle.certificate.key != PublicOf(key) then Err(KeyMismatch)
    else Ok(IssueLeaf(bundle, now, draw))
  }

  predicate NeedsRoot(s: Secret, now: Civil)
    requires ValidCivil(now)
  {
    ExpiresBefore(s.bundle, AddYears(now, 1))
  }

  predicate NeedsLeaf(s: Secret, now: Civil)
    requires ValidCivil(now)
  {
    !s.hasKey || ExpiresBefore(s.leaf, Now(now) + 2 * HOUR)
  }

  function Refresh(s: Secret, key: PrivateKey, now: Civil, draw: Draw): Result<Secret, RotationError>
    requires ValidCivil(now)
  {
    if !NeedsRoot(s, now) && !NeedsLeaf(s, now) && s.digest != NoDigest then Ok(s)
    else
      var material := if NeedsRoot(s, now) then Ok(FromPrivateKey(key, now, draw)) else Rotate(key, s.bundle, now, draw);
      match material
      case Err(e) => Err(e)
      case Ok(m) =>
        Ok(Secret(m.bundle, m.leaf, true, m.digest, if s.generation.None? then Some(0) else s.generation))
  }

  /** The identity Secret in the cluster. */
  class IdentitySecret {
    var bundle: Pem
    var leaf: Pem
    var hasKey: bool
    var digest: BundleDigest
    var generation: Option<nat>

    ghost function State(): Secret
      reads this
    {
      Secret(bundle, leaf, hasKey, digest, generation)
    }

    /** `accepted` says whether the API server takes the update. */
    method RefreshTLSSecret(key: PrivateKey, now: Civil, draw: Draw, accepted: bool) returns (ok: bool)
      requires ValidCivil(now)
      modifies this
      ensures ok ==> Refresh(old(State()), key, now, draw) == Ok(State())
      ensures !ok ==> State() == old(State())
      ensures accepted ==> (ok <==> Refresh(old(State()), key, now, draw).Ok?)
    {
      var needsRoot := ExpiresBefore(bundle, AddYears(now, 1));
      var needsLeaf := !hasKey || ExpiresBefore(leaf, Now(now) + 2 * HOUR);
      if needsRoot || needsLeaf || digest == NoDigest {
        var material;
        if needsRoot {
          material := FromPrivateKey(key, now, draw);
        } else {
          var rotated := Rotate(key, bundle, now, draw);
          if rotated.Err? {
            return false;
          }
          material := rotated.value;
        }
        if !accepted {
          return false;
        }
        leaf, hasKey, bundle, digest := material.leaf, true, material.bundle, material.digest;
        if generation.None? {
          generation := Some(0);
        }
      }
      return true;
    }
  }

  // ---------------------------------------------------------------------------------------------
  // Runs of refreshes
  // ---------------------------------------------------------------------------------------------

  /** The leaf's validity lies inside the root's and has begun. */
  predicate LeafInside(s: Secret, now: Time) {
    && s.bundle.Pem? && s.leaf.Pem?
    && s.bundle.certificate.notBefore <= s.leaf.certificate.notBefore <= now
    && s.leaf.certificate.notAfter <= s.bundle.certificate.notAfter
  }

  /** What a refresh at `now` promises. */
  predicate Fresh(s: Secret, key: PrivateKey, now: Civil)
    requires ValidCivil(now)
  {
    && s.hasKey && LeafInside(s, Now(now))
    && s.bundle.certificate.isCA && s.bundle.certificate.key == PublicOf(key)
    && s.leaf.certificate.notAfter >= Now(now) + 2 * HOUR
    && s.bundle.certificate.notAfter >= AddYears(now, 1)
    && s.digest == Sha256(s.bundle)
  }

  predicate OwnRoot(s: Secret, key: PrivateKey) {
    s.bundle.Pem? && s.bundle.certificate.isCA && s.bundle.certificate.key == PublicOf(key)
  }

  /** The root began before a leaf issued at `now` would. */
  predicate RootBegun(s: Secret, now: Time) {
    s.bundle.Pem? && s.bundle.certificate.notBefore <= WholeSeconds(now - MINUTE)
  }

  /**
   The Secrets a refresh can put in order: the root is missing, undecodable or due; or it is the agent's own and either
   begun, with the leaf missing, undecodable or due or no digest annotated, or everything kept is already consistent.
   */
  predicate Refreshable(s: Secret, key: PrivateKey, now: Civil)
    requires ValidCivil(now)
  {
    || NeedsRoot(s, now)
    || (OwnRoot(s, key) && if NeedsLeaf(s, now) || s.digest == NoDigest then RootBegun(s, Now(now))
                           else LeafInside(s, Now(now)) && s.digest == Sha256(s.bundle))
  }

  lemma WholeSecondsMonotone(a: Time, b: Time)
    requires a <= b
    ensures WholeSeconds(a) <= WholeSeconds(b)
  {
  }

  /** What either issuance puts into the Secret is fresh, provided the root it uses is the agent's own, has begun and is not due. */
  lemma IssuedIsFresh(s: Secret, key: PrivateKey, now: Civil, draw: Draw)
    requires ValidCivil(now) && s.hasKey && s.digest == Sha256(s.bundle) && OwnRoot(s, key) && !NeedsRoot(s, now)
    requires s.leaf == IssueLeaf(s.bundle, now, draw).leaf
    ensures Fresh(s, key, now) <==> RootBegun(s, Now(now))
  {
    YearsAdd(now, 0, 1);
    WholeSecondsMonotone(Now(now) - MINUTE, Now(now));
  }

  lemma NewRootIsOwn(key: PrivateKey, now: Civil, draw: Draw)
    requires ValidCivil(now)
    ensures var bundle := FromPrivateKey(key, now, draw).bundle;
            bundle.Pem? && bundle.certificate.isCA && bundle.certificate.key == PublicOf(key)
            && bundle.certificate.notBefore == WholeSeconds(Now(now) - MINUTE) && bundle.certificate.notAfter >= AddYears(now, 1)
  {
    YearsAdd(now, 1, 10);
  }

  /**
   For every Secret whatever: a refresh succeeds and leaves it fresh exactly when it was refreshable; and it moves the
   digest only if the root was missing or due, or the annotation was missing or wrong.
   */
  lemma RefreshIsFresh(s: Secret, key: PrivateKey, now: Civil, draw: Draw)
    requires ValidCivil(now)
    ensures Refresh(s, key, now, draw).Ok? && Fresh(Refresh(s, key, now, draw).value, key, now) <==> Refreshable(s, key, now)
    ensures Refresh(s, key, now, draw).Ok? && Refresh(s, key, now, draw).value.digest != s.digest ==>
              NeedsRoot(s, now) || s.digest != Sha256(s.bundle)
  {
    hide AddYears, WholeSeconds, IssueLeaf, FromPrivateKey;
    RefreshCases(s, key, now, draw);
    if NeedsRoot(s, now) {
      NewRootIsOwn(key, now, draw);
      IssuedIsFresh(Refresh(s, key, now, draw).value, key, now, draw);
    } else if (NeedsLeaf(s, now) || s.digest == NoDigest) && OwnRoot(s, key) {
      IssuedIsFresh(Refresh(s, key, now, draw).value, key, now, draw);
    }
  }

  lemma RefreshCases(s: Secret, key: PrivateKey, now: Civil, draw: Draw)
    requires ValidCivil(now)
    ensures var r := Refresh(s, key, now, draw);
            if NeedsRoot(s, now) then
              r.Ok? && r.value.bundle == FromPrivateKey(key, now, draw).bundle
              && r.value.leaf == IssueLeaf(r.value.bundle, now, draw).leaf
              && r.value.hasKey && r.value.digest == Sha256(r.value.bundle)
            else if NeedsLeaf(s, now) || s.digest == NoDigest then
              if OwnRoot(s, key) then
                r.Ok? && r.value.bundle == s.bundle && r.value.leaf == IssueLeaf(s.bundle, now, draw).leaf
                && r.value.hasKey && r.value.digest == Sha256(s.bundle)
              else r.Err?
            else r == Ok(s)
  {
    hide AddYears;
  }

  /** What issuance at `now` puts beside a root: a minute back for clock skew and 24 hours, for the key and serial drawn. */
  predicate IssuedLeaf(leaf: Pem, now: Civil, draw: Draw)
    requires ValidCivil(now)
  {
    leaf == Pem(Certificate(draw.leafSerial, WholeSeconds(Now(now) - MINUTE), WholeSeconds(Now(now) + 24 * HOUR), false, draw.leafKey))
  }

  /**
   Everything a refresh writes. A root that is missing, undecodable or within a year of expiry is replaced by one of ten
   years for the agent's key; a leaf that is missing, undecodable or within two hours of expiry, a missing key and a missing
   digest lead to a new leaf under the old root, if that is the agent's own; otherwise nothing is written. A generation
   that is there is kept, and becomes 0 if there is none.
   */
  lemma RefreshWrites(s: Secret, key: PrivateKey, now: Civil, draw: Draw)
    requires ValidCivil(now)
    ensures var r := Refresh(s, key, now, draw);
            var rootDue := !s.bundle.Pem? || s.bundle.certificate.notAfter < AddYears(now, 1);
            var leafDue := !s.hasKey || !s.leaf.Pem? || s.leaf.certificate.notAfter < Now(now) + 2 * HOUR || s.digest == NoDigest;
            if rootDue then
              && r.Ok? && r.value.hasKey && IssuedLeaf(r.value.leaf, now, draw) && r.value.digest == Sha256(r.value.bundle)
              && r.value.bundle == Pem(Certificate(draw.rootSerial, WholeSeconds(Now(now) - MINUTE), WholeSeconds(AddYears(now, 10)), true, PublicOf(key)))
              && r.value.generation == Some(if s.generation.Some? then s.generation.value else 0)
            else if leafDue then
              if !s.bundle.certificate.isCA then r == Err(InvalidRoot)
              else if s.bundle.certificate.key != PublicOf(key) then r == Err(KeyMismatch)
              else
                && r.Ok? && r.value.hasKey && IssuedLeaf(r.value.leaf, now, draw) && r.value.digest == Sha256(s.bundle)
                && r.value.bundle == s.bundle && r.value.generation == Some(if s.generation.Some? then s.generation.value else 0)
            else r == Ok(s)
  {
    hide AddYears, WholeSeconds;
  }

  /**
   What stays refreshable: the root is missing, undecodable or due, or it is the agent's own, has begun, and no kept
   leaf or digest contradicts it.
   */
  predicate Managed(s: Secret, key: PrivateKey, now: Civil)
    requires ValidCivil(now)
  {
    NeedsRoot(s, now) || (RootBegun(s, Now(now)) && Refreshable(s, key, now))
  }

  /** A refresh of a managed Secret leaves it managed at every later time. */
  lemma ManagedLater(s: Secret, key: PrivateKey, now: Civil, draw: Draw, later: Civil)
    requires ValidCivil(now) && ValidCivil(later) && Now(now) <= Now(later) && Managed(s, key, now)
    ensures Refresh(s, key, now, draw).Ok? && Fresh(Refresh(s, key, now, draw).value, key, now)
    ensures Managed(Refresh(s, key, now, draw).value, key, later)
  {
    hide AddYears, WholeSeconds, IssueLeaf, FromPrivateKey;
    RefreshIsFresh(s, key, now, draw);
    RefreshCases(s, key, now, draw);
    NewRootIsOwn(key, now, draw);
    WholeSecondsMonotone(Now(now) - MINUTE, Now(later) - MINUTE);
  }

  datatype Refreshing = Refreshing(now: Civil, draw: Draw)

  predicate Clocked(run: seq<Refreshing>) {
    && (forall r <- run :: ValidCivil(r.now))
    && (forall i, j | 0 <= i < j < |run| :: ValidCivil(run[i].now) && ValidCivil(run[j].now) && Now(run[i].now) <= Now(run[j].now))
  }

  /** The Secret after a run of refreshes, if all succeed. */
  function After(s: Secret, key: PrivateKey, run: seq<Refreshing>): Option<Secret>
    requires Clocked(run)
  {
    if run == [] then Some(s)
    else
      var before := After(s, key, run[..|run| - 1]);
      var last := run[|run| - 1];
      if before.None? then None
      else match Refresh(before.value, key, last.now, last.draw)
        case Ok(t) => Some(t)
        case Err(_) => None
  }

  /** Over every run on a nondecreasing clock: no refresh fails, each leaves a fresh Secret, and the next can go on from there. */
  lemma {:induction false} EveryRefreshIsFresh(s: Secret, key: PrivateKey, run: seq<Refreshing>)
    requires Clocked(run) && run != [] && Managed(s, key, run[0].now)
    ensures After(s, key, run).Some?
    ensures Fresh(After(s, key, run).value, key, run[|run| - 1].now)
    ensures forall later | ValidCivil(later) && Now(run[|run| - 1].now) <= Now(later) :: Managed(After(s, key, run).value, key, later)
  {
    hide Managed, Fresh, Refresh, Now;
    var before, last := run[..|run| - 1], run[|run| - 1];
    var start := s;
    if before != [] {
      EveryRefreshIsFresh(s, key, before);
      start := After(s, key, before).value;
    }
    assert Managed(start, key, last.now);
    ManagedLater(start, key, last.now, last.draw, last.now);
    assert After(s, key, run) == Some(Refresh(start, key, last.now, last.draw).value);
    forall later | ValidCivil(later) && Now(last.now) <= Now(later) ensures Managed(After(s, key, run).value, key, later) {
      ManagedLater(start, key, last.now, last.draw, later);
    }
  }

  /** Over every run, a published digest is replaced only when the root it names is within a year of expiry. */
  lemma DigestMovesOnlyWhenDue(s: Secret, key: PrivateKey, run: seq<Refreshing>, next: Refreshing)
    requires Clocked(run + [next]) && run != [] && Managed(s, key, (run + [next])[0].now)
    ensures Clocked(run) && After(s, key, run).Some? && After(s, key, run + [next]).Some?
    ensures var before, after := After(s, key, run).value, After(s, key, run + [next]).value;
            && before.bundle.Pem? && before.digest == Sha256(before.bundle)
            && (after.digest != before.digest ==> before.bundle.certificate.notAfter < AddYears(next.now, 1))
  {
    hide Managed, Refresh, AddYears;
    var longer := run + [next];
    assert longer[..|run|] == run && longer[|run|] == next && longer[|run| - 1] == run[|run| - 1] && longer[0] == run[0];
    assert forall r <- run :: r in longer;
    assert forall i | 0 <= i < |run| :: run[i] == longer[i];
    EveryRefreshIsFresh(s, key, run);
    EveryRefreshIsFresh(s, key, longer);
    RefreshIsFresh(After(s, key, run).value, key, next.now, next.draw);
  }
}
